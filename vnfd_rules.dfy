/** What each stage of the IM VNFD -> SOL006 VNFD translation writes, as functions of the
    IM descriptor and of the output mapping the earlier stages left (osm_im/im_translation.py,
    lines 47-551). The imperative stages in module VnfdBuilder are proved to compute these. */
module VnfdRules {
  import opened Wrappers
  import opened Errors
  import opened Seqs
  import Im
  import opened Sol006

  // ---------------------------------------------------------------- derived ids

  function ComputeDescId(vduId: string): string { vduId + "-compute" }
  function StorageDescId(vduId: string): string { vduId + "-storage" }
  function IntCpdId(interfaceName: string): string { interfaceName + "-int" }
  function ExtCpdId(cpRef: string): string { cpRef + "-ext" }
  function DeltaId(aspectId: string): string { aspectId + "-delta" }
  function VduConfigurationId(vduId: string): string { vduId + "-vdu-configuration" }
  function L3ProtocolDataName(vlId: string): string { vlId + "-l3-protocol-data" }
  const DefaultDfId := "default-df"
  const DefaultInstantiationLevelId := "default-instantiation-level"
  const DefaultVnfConfigurationId := "default-vnf-configuration"

  /** `src` when it is truthy, `dst` (the key left as it was) otherwise. */
  function CopyIfTruthy(src: Option<string>, dst: Option<string>): Option<string>
  {
    if Im.Truthy(src) then src else dst
  }

  /** `src` when it is truthy, absent otherwise. */
  function IfTruthy(src: Option<string>): Option<string> { CopyIfTruthy(src, None) }

  /** `src` when it is truthy, absent otherwise. */
  function IfNonZero(src: Option<int>): Option<int> { if Im.NonZero(src) then src else None }

  // ---------------------------------------------------------------- 1, 2: basic data, mgmt-cp

  function BasicData(v: Im.Vnfd, out: Vnfd): Vnfd
  {
    out.(id := Some(v.id),
         productName := CopyIfTruthy(v.name, out.productName),
         description := CopyIfTruthy(v.description, out.description),
         provider := CopyIfTruthy(v.vendor, out.provider),
         version := CopyIfTruthy(v.version, out.version))
  }

  /** `mgmt-cp`; a missing `mgmt-interface` key raises a lookup error on it, and a present
      block without a `cp` (the empty mapping included) raises one on `cp`. */
  function MgmtCp(v: Im.Vnfd, out: Vnfd): Result<Vnfd, TranslationError>
  {
    match v.mgmtInterface
    case None => Err(KeyError("mgmt-interface"))
    case Some(mi) =>
      match mi.cp
      case None => Err(KeyError("cp"))
      case Some(cp) => Ok(out.(mgmtCp := Some(ExtCpdId(cp))))
  }

  // ---------------------------------------------------------------- 3: flavors

  /** The storage descriptor the flavor stage builds for one VDU, if any. */
  function FlavorStorageDesc(vdu: Im.Vdu): Option<VirtualStorageDesc>
  {
    match vdu.vmFlavor
    case None => None
    case Some(f) =>
      if Im.NonZero(f.storageGb) then Some(VirtualStorageDesc(StorageDescId(vdu.id), f.storageGb, None)) else None
  }

  /** The compute descriptor the flavor stage builds for one VDU, if any; memory in GiB. */
  function FlavorComputeDesc(vdu: Im.Vdu): Option<VirtualComputeDesc>
  {
    match vdu.vmFlavor
    case None => None
    case Some(f) =>
      if Im.NonZero(f.vcpuCount) || Im.NonZero(f.memoryMb) then
        Some(VirtualComputeDesc(
          ComputeDescId(vdu.id),
          if Im.NonZero(f.vcpuCount) then Some(VirtualCpu(f.vcpuCount, None, None)) else None,
          if Im.NonZero(f.memoryMb) then Some(VirtualMemory(Some(f.memoryMb.value as real / 1024.0), None, None, None, None)) else None))
      else None
  }

  function Flavors(v: Im.Vnfd, out: Vnfd): Vnfd
  {
    out.(virtualStorageDesc := SetIfNonEmpty(out.virtualStorageDesc, Collect(v.vdus, FlavorStorageDesc)),
         virtualComputeDesc := SetIfNonEmpty(out.virtualComputeDesc, Collect(v.vdus, FlavorComputeDesc)))
  }

  // ---------------------------------------------------------------- 4: guest EPA

  const EmptyVirtualMemory := VirtualMemory(None, None, None, None, None)
  const EmptyVirtualCpu := VirtualCpu(None, None, None)

  /** The `virtual-memory` keys guest EPA sets. */
  function EpaVirtualMemory(epa: Im.GuestEpa): VirtualMemory
  {
    VirtualMemory(
      None,
      IfTruthy(epa.mempageSize),
      if epa.numaNodePolicy.Some? then Some(true) else None,
      epa.numaNodePolicy,
      epa.memQuota)
  }

  /** The pinning policy name: SHARED is dynamic, any other policy static. */
  function PinningPolicy(cpuPinningPolicy: string): string
  {
    if cpuPinningPolicy == "SHARED" then "dynamic" else "static"
  }

  /** The `virtual-cpu` keys guest EPA sets. */
  function EpaVirtualCpu(epa: Im.GuestEpa): VirtualCpu
  {
    VirtualCpu(
      None,
      if Im.Truthy(epa.cpuPinningPolicy) || Im.Truthy(epa.cpuThreadPinningPolicy) then
        Some(VirtualCpuPinning(
          if Im.Truthy(epa.cpuPinningPolicy) then Some(PinningPolicy(epa.cpuPinningPolicy.value)) else None,
          IfTruthy(epa.cpuThreadPinningPolicy)))
      else None,
      epa.cpuQuota)
  }

  /** A key-by-key `dict.update`: the keys `m` sets win, the others keep `base`'s values. */
  function Override<T>(base: Option<T>, m: Option<T>): Option<T> { if m.Some? then m else base }

  function UpdateMemory(base: VirtualMemory, m: VirtualMemory): VirtualMemory
  {
    VirtualMemory(Override(base.size, m.size), Override(base.mempageSize, m.mempageSize),
                  Override(base.numaEnabled, m.numaEnabled), Override(base.numaNodePolicy, m.numaNodePolicy),
                  Override(base.memQuota, m.memQuota))
  }

  function UpdateCpu(base: VirtualCpu, m: VirtualCpu): VirtualCpu
  {
    VirtualCpu(Override(base.numVirtualCpu, m.numVirtualCpu), Override(base.pinning, m.pinning),
               Override(base.cpuQuota, m.cpuQuota))
  }

  /** The `virtual-memory` key after merging: written only when the merged map is non-empty. */
  function MergeMemory(current: Option<VirtualMemory>, m: VirtualMemory): Option<VirtualMemory>
  {
    var merged := UpdateMemory(current.GetOr(EmptyVirtualMemory), m);
    if merged == EmptyVirtualMemory then current else Some(merged)
  }

  function MergeCpu(current: Option<VirtualCpu>, m: VirtualCpu): Option<VirtualCpu>
  {
    var merged := UpdateCpu(current.GetOr(EmptyVirtualCpu), m);
    if merged == EmptyVirtualCpu then current else Some(merged)
  }

  /** A compute descriptor with guest EPA merged into its memory and cpu maps. */
  function MergeEpaCompute(d: VirtualComputeDesc, epa: Im.GuestEpa): VirtualComputeDesc
  {
    d.(virtualMemory := MergeMemory(d.virtualMemory, EpaVirtualMemory(epa)),
       virtualCpu := MergeCpu(d.virtualCpu, EpaVirtualCpu(epa)))
  }

  function ComputeId(d: VirtualComputeDesc): string { d.id }
  function StorageId(d: VirtualStorageDesc): string { d.id }

  /** EPA memory and cpu for one VDU: patch the VDU's compute descriptor, or append one. */
  function PatchCompute(descs: Option<seq<VirtualComputeDesc>>, vduId: string, epa: Im.GuestEpa): Option<seq<VirtualComputeDesc>>
  {
    var s := descs.GetOr([]);
    match LastIndex(s, ComputeId, ComputeDescId(vduId))
    case Some(k) => Some(s[k := MergeEpaCompute(s[k], epa)])
    case None => Some(s + [MergeEpaCompute(VirtualComputeDesc(ComputeDescId(vduId), None, None), epa)])
  }

  /** EPA disk-io-quota for one VDU: set it on the VDU's storage descriptor, or append one. */
  function PatchStorage(descs: Option<seq<VirtualStorageDesc>>, vduId: string, epa: Im.GuestEpa): Option<seq<VirtualStorageDesc>>
  {
    match epa.diskIoQuota
    case None => descs
    case Some(q) =>
      var s := descs.GetOr([]);
      match LastIndex(s, StorageId, StorageDescId(vduId))
      case Some(k) => Some(s[k := s[k].(diskIoQuota := Some(q))])
      case None => Some(s + [VirtualStorageDesc(StorageDescId(vduId), None, Some(q))])
  }

  function EpaCompute(vdus: seq<Im.Vdu>, descs: Option<seq<VirtualComputeDesc>>): Option<seq<VirtualComputeDesc>>
  {
    if vdus == [] then descs else
      var d := EpaCompute(vdus[..|vdus| - 1], descs);
      match vdus[|vdus| - 1].guestEpa
      case None => d
      case Some(epa) => PatchCompute(d, vdus[|vdus| - 1].id, epa)
  }

  function EpaStorage(vdus: seq<Im.Vdu>, descs: Option<seq<VirtualStorageDesc>>): Option<seq<VirtualStorageDesc>>
  {
    if vdus == [] then descs else
      var d := EpaStorage(vdus[..|vdus| - 1], descs);
      match vdus[|vdus| - 1].guestEpa
      case None => d
      case Some(epa) => PatchStorage(d, vdus[|vdus| - 1].id, epa)
  }

  function GuestEpa(v: Im.Vnfd, out: Vnfd): Vnfd
  {
    out.(virtualComputeDesc := EpaCompute(v.vdus, out.virtualComputeDesc),
         virtualStorageDesc := EpaStorage(v.vdus, out.virtualStorageDesc))
  }

  // ---------------------------------------------------------------- 5: VNFD-level images

  function ImageId(d: SwImageDesc): string { d.id }

  function PrimaryImageDesc(vdu: Im.Vdu): Option<SwImageDesc>
  {
    if Im.Truthy(vdu.image) then Some(SwImageDesc(vdu.image.value, vdu.image.value, vdu.image.value, None)) else None
  }

  function AlternativeImageDesc(a: Im.AlternativeImage): SwImageDesc
  {
    SwImageDesc(a.image, a.image, a.image, IfTruthy(a.vimType))
  }

  /** One VDU's image candidates: the primary image (when set), then the alternatives. */
  function VduImageCandidates(vdu: Im.Vdu): seq<SwImageDesc>
  {
    (if PrimaryImageDesc(vdu).Some? then [PrimaryImageDesc(vdu).value] else [])
      + Map(vdu.alternativeImages, AlternativeImageDesc)
  }

  /** Every image candidate of every VDU, in the order the stage visits them. */
  function ImageCandidates(vdus: seq<Im.Vdu>): seq<SwImageDesc>
  {
    if vdus == [] then [] else ImageCandidates(vdus[..|vdus| - 1]) + VduImageCandidates(vdus[|vdus| - 1])
  }

  function SwImageDescs(vdus: seq<Im.Vdu>): seq<SwImageDesc>
  {
    FirstOccurrences(ImageCandidates(vdus), ImageId)
  }

  function Images(v: Im.Vnfd, out: Vnfd): Vnfd
  {
    out.(swImageDesc := SetIfNonEmpty(out.swImageDesc, SwImageDescs(v.vdus)))
  }

  // ---------------------------------------------------------------- 6: VDUs

  function AlternativeImageName(a: Im.AlternativeImage): string { a.image }

  function VduSwImage(vdu: Im.Vdu): Option<string> { IfTruthy(vdu.image) }

  function VduAlternativeSwImages(vdu: Im.Vdu): Option<seq<string>>
  {
    SetIfNonEmpty(None, Map(vdu.alternativeImages, AlternativeImageName))
  }

  /** The VDU's `virtual-compute-desc` reference, by the id convention. */
  function VduComputeRef(vdu: Im.Vdu): Option<string>
  {
    match vdu.vmFlavor
    case None => None
    case Some(f) => if Im.NonZero(f.vcpuCount) || Im.NonZero(f.memoryMb) then Some(ComputeDescId(vdu.id)) else None
  }

  /** The VDU's `virtual-storage-desc` reference list, by the id convention. */
  function VduStorageRef(vdu: Im.Vdu): Option<seq<string>>
  {
    match vdu.vmFlavor
    case None => None
    case Some(f) => if Im.NonZero(f.storageGb) then Some([StorageDescId(vdu.id)]) else None
  }

  function IntCpdOf(iface: Im.Interface): IntCpd
  {
    IntCpd(IntCpdId(iface.name),
           [VirtualNetworkInterfaceRequirement(iface.name, iface.virtualInterface, iface.position)],
           None)
  }

  /** `port-security-enabled` of the last connection point named `ref` that has the key. */
  function PortSecurityEnabledOf(cps: seq<Im.ConnectionPoint>, ref: string): Option<bool>
  {
    if cps == [] then None else
      var cp := cps[|cps| - 1];
      if cp.name.GetOr("") == ref && cp.portSecurityEnabled.Some? then cp.portSecurityEnabled
      else PortSecurityEnabledOf(cps[..|cps| - 1], ref)
  }

  /** `port-security-disable-strategy` of the last connection point named `ref` that sets it. */
  function PortSecurityDisableStrategyOf(cps: seq<Im.ConnectionPoint>, ref: string): Option<string>
  {
    if cps == [] then None else
      var cp := cps[|cps| - 1];
      if cp.name.GetOr("") == ref && Im.Truthy(cp.portSecurityDisableStrategy) then cp.portSecurityDisableStrategy
      else PortSecurityDisableStrategyOf(cps[..|cps| - 1], ref)
  }

  function ExtCpdOf(vduId: string, iface: Im.Interface, cps: seq<Im.ConnectionPoint>): Option<ExtCpd>
  {
    if Im.Truthy(iface.externalConnectionPointRef) then
      var ref := iface.externalConnectionPointRef.value;
      Some(VduExtCpd(ExtCpdId(ref), vduId, IntCpdId(iface.name),
                     PortSecurityEnabledOf(cps, ref), PortSecurityDisableStrategyOf(cps, ref)))
    else None
  }

  /** The external connection points of one VDU, one per interface with an external reference. */
  function ExtCpdsOf(vduId: string, ifaces: seq<Im.Interface>, cps: seq<Im.ConnectionPoint>): seq<ExtCpd>
  {
    if ifaces == [] then [] else
      var rest := ExtCpdsOf(vduId, ifaces[..|ifaces| - 1], cps);
      match ExtCpdOf(vduId, ifaces[|ifaces| - 1], cps)
      case Some(e) => rest + [e]
      case None => rest
  }

  function AllExtCpds(vdus: seq<Im.Vdu>, cps: seq<Im.ConnectionPoint>): seq<ExtCpd>
  {
    if vdus == [] then [] else
      AllExtCpds(vdus[..|vdus| - 1], cps) + ExtCpdsOf(vdus[|vdus| - 1].id, vdus[|vdus| - 1].interfaces, cps)
  }

  /** The scaling group lists a VDU entry referring to `vduId`. */
  predicate GroupReferences(g: Im.ScalingGroup, vduId: string)
  {
    exists e :: e in g.vdus && e.vduIdRef == Some(vduId)
  }

  /** The last scaling group that refers to `vduId`. */
  function LastReferencingGroup(groups: seq<Im.ScalingGroup>, vduId: string): Option<Im.ScalingGroup>
  {
    if groups == [] then None
    else if GroupReferences(groups[|groups| - 1], vduId) then Some(groups[|groups| - 1])
    else LastReferencingGroup(groups[..|groups| - 1], vduId)
  }

  function InitialInstances(vdu: Im.Vdu): int { vdu.count.GetOr(1) }

  /** (min, max) instances: the initial count, shifted by the bounds of the referencing group. */
  function InstanceBounds(initial: int, group: Option<Im.ScalingGroup>): (int, Option<int>)
  {
    match group
    case None => (initial, None)
    case Some(g) => (g.minInstanceCount.GetOr(0) + initial, Some(g.maxInstanceCount.GetOr(1) + initial))
  }

  function VduProfileOf(vdu: Im.Vdu, groups: seq<Im.ScalingGroup>): VduProfile
  {
    var bounds := InstanceBounds(InitialInstances(vdu), LastReferencingGroup(groups, vdu.id));
    VduProfile(vdu.id, bounds.0, bounds.1,
               if vdu.vduConfiguration.Some? then Some(VduConfigurationId(vdu.id)) else None)
  }

  function VduProfiles(vdus: seq<Im.Vdu>, groups: seq<Im.ScalingGroup>): seq<VduProfile>
  {
    if vdus == [] then [] else VduProfiles(vdus[..|vdus| - 1], groups) + [VduProfileOf(vdus[|vdus| - 1], groups)]
  }

  function VduLevelOf(vdu: Im.Vdu): VduLevel { VduLevel(vdu.id, InitialInstances(vdu)) }

  function VduConfigurationOf(vdu: Im.Vdu): Option<Configuration>
  {
    match vdu.vduConfiguration
    case None => None
    case Some(b) => Some(Configuration(VduConfigurationId(vdu.id), b))
  }

  function VduDescriptorOf(vdu: Im.Vdu): Vdu
  {
    Vdu(vdu.id, IfTruthy(vdu.description), IfTruthy(vdu.name), IfTruthy(vdu.cloudInitFile),
        vdu.supplementalBootData, vdu.alarm, IfTruthy(vdu.pduType),
        VduSwImage(vdu), VduAlternativeSwImages(vdu), VduComputeRef(vdu), VduStorageRef(vdu),
        Map(vdu.interfaces, IntCpdOf), None)
  }

  /** The single deployment flavour the VDU stage builds. */
  function DefaultDf(v: Im.Vnfd): Df
  {
    Df(DefaultDfId, Some(VduProfiles(v.vdus, v.scalingGroups)),
       Some([InstantiationLevel(DefaultInstantiationLevelId, Map(v.vdus, VduLevelOf))]),
       None, None, None)
  }

  /** How each list the VDU stage builds grows by one VDU. */
  lemma VdusSnoc(vdus: seq<Im.Vdu>, d: Im.Vdu, cps: seq<Im.ConnectionPoint>, groups: seq<Im.ScalingGroup>)
    ensures Map(vdus + [d], VduDescriptorOf) == Map(vdus, VduDescriptorOf) + [VduDescriptorOf(d)]
    ensures Map(vdus + [d], VduLevelOf) == Map(vdus, VduLevelOf) + [VduLevelOf(d)]
    ensures Collect(vdus + [d], VduConfigurationOf) == Collect(vdus, VduConfigurationOf) + (if VduConfigurationOf(d).Some? then [VduConfigurationOf(d).value] else [])
    ensures AllExtCpds(vdus + [d], cps) == AllExtCpds(vdus, cps) + ExtCpdsOf(d.id, d.interfaces, cps)
    ensures VduProfiles(vdus + [d], groups) == VduProfiles(vdus, groups) + [VduProfileOf(d, groups)]
  {
    assert (vdus + [d])[..|vdus|] == vdus;
    MapSnoc(vdus, d, VduDescriptorOf);
    MapSnoc(vdus, d, VduLevelOf);
    CollectSnoc(vdus, d, VduConfigurationOf);
  }

  function Vdus(v: Im.Vnfd, out: Vnfd): Vnfd
  {
    out.(vdu := if |v.vdus| > 0 then Some(Map(v.vdus, VduDescriptorOf)) else out.vdu,
         df := if |v.vdus| > 0 then Some([DefaultDf(v)]) else out.df,
         extCpd := SetIfNonEmpty(out.extCpd, AllExtCpds(v.vdus, v.connectionPoints)),
         vduConfiguration := SetIfNonEmpty(out.vduConfiguration, Collect(v.vdus, VduConfigurationOf)))
  }

  // ---------------------------------------------------------------- 7: internal VLDs

  /** internal-connection-point-ref -> (vdu id, interface name) over some interfaces of one VDU. */
  function IndexInterfaces(m: map<string, (string, string)>, vduId: string, ifaces: seq<Im.Interface>): map<string, (string, string)>
  {
    if ifaces == [] then m else
      var m' := IndexInterfaces(m, vduId, ifaces[..|ifaces| - 1]);
      var iface := ifaces[|ifaces| - 1];
      if Im.Truthy(iface.internalConnectionPointRef) then m'[iface.internalConnectionPointRef.value := (vduId, iface.name)] else m'
  }

  /** internal-connection-point-ref -> (vdu id, interface name); a later declaration wins. */
  function IntCpRefIndex(vdus: seq<Im.Vdu>): map<string, (string, string)>
  {
    if vdus == [] then map[] else
      IndexInterfaces(IntCpRefIndex(vdus[..|vdus| - 1]), vdus[|vdus| - 1].id, vdus[|vdus| - 1].interfaces)
  }

  function LinkIntCpd(c: IntCpd, cpdId: string, vldId: string): IntCpd
  {
    if c.id == cpdId then c.(intVirtualLinkDesc := Some(vldId)) else c
  }

  /** Every VDU `vduId`'s int-cpd `cpdId` linked to `vldId`. */
  function LinkVdus(vdus: seq<Vdu>, vduId: string, cpdId: string, vldId: string): (r: seq<Vdu>)
    ensures |r| == |vdus|
  {
    seq(|vdus|, i requires 0 <= i < |vdus| =>
      if vdus[i].id == vduId
      then vdus[i].(intCpd := seq(|vdus[i].intCpd|, j requires 0 <= j < |vdus[i].intCpd| => LinkIntCpd(vdus[i].intCpd[j], cpdId, vldId)))
      else vdus[i])
  }

  function LinkVduList(vdus: Option<seq<Vdu>>, vduId: string, cpdId: string, vldId: string): Option<seq<Vdu>>
  {
    match vdus
    case None => None
    case Some(s) => Some(LinkVdus(s, vduId, cpdId, vldId))
  }

  /** Resolve the first `refs` of one internal VLD and link the int-cpds they reach. */
  function LinkRefs(vdus: Option<seq<Vdu>>, index: map<string, (string, string)>, refs: seq<string>, vldId: string): Result<Option<seq<Vdu>>, TranslationError>
  {
    if refs == [] then Ok(vdus) else
      match LinkRefs(vdus, index, refs[..|refs| - 1], vldId)
      case Err(e) => Err(e)
      case Ok(vs) =>
        var ref := refs[|refs| - 1];
        if ref !in index then Err(KeyError(ref))
        else Ok(LinkVduList(vs, index[ref].0, IntCpdId(index[ref].1), vldId))
  }

  function LinkVlds(vdus: Option<seq<Vdu>>, index: map<string, (string, string)>, vlds: seq<Im.InternalVld>): Result<Option<seq<Vdu>>, TranslationError>
  {
    if vlds == [] then Ok(vdus) else
      match LinkVlds(vdus, index, vlds[..|vlds| - 1])
      case Err(e) => Err(e)
      case Ok(vs) => LinkRefs(vs, index, vlds[|vlds| - 1].internalConnectionPoints, vlds[|vlds| - 1].id)
  }

  /** Once a prefix of the references fails, the whole list fails with the same error. */
  lemma {:induction false} LinkRefsErrPrefix(vdus: Option<seq<Vdu>>, index: map<string, (string, string)>, refs: seq<string>, vldId: string, n: nat)
    requires n <= |refs| && LinkRefs(vdus, index, refs[..n], vldId).Err?
    ensures LinkRefs(vdus, index, refs, vldId) == LinkRefs(vdus, index, refs[..n], vldId)
    decreases |refs|
  {
    if n < |refs| {
      assert refs[..|refs| - 1][..n] == refs[..n];
      LinkRefsErrPrefix(vdus, index, refs[..|refs| - 1], vldId, n);
    } else {
      assert refs[..n] == refs;
    }
  }

  lemma {:induction false} LinkVldsErrPrefix(vdus: Option<seq<Vdu>>, index: map<string, (string, string)>, vlds: seq<Im.InternalVld>, n: nat)
    requires n <= |vlds| && LinkVlds(vdus, index, vlds[..n]).Err?
    ensures LinkVlds(vdus, index, vlds) == LinkVlds(vdus, index, vlds[..n])
    decreases |vlds|
  {
    if n < |vlds| {
      assert vlds[..|vlds| - 1][..n] == vlds[..n];
      LinkVldsErrPrefix(vdus, index, vlds[..|vlds| - 1], n);
    } else {
      assert vlds[..n] == vlds;
    }
  }

  function InternalVldId(vld: Im.InternalVld): string { vld.id }

  function InternalVlds(v: Im.Vnfd, out: Vnfd): Result<Vnfd, TranslationError>
  {
    match LinkVlds(out.vdu, IntCpRefIndex(v.vdus), v.internalVlds)
    case Err(e) => Err(e)
    case Ok(vs) => Ok(out.(vdu := vs, intVirtualLinkDesc := SetIfNonEmpty(out.intVirtualLinkDesc, Map(v.internalVlds, InternalVldId))))
  }

  // ---------------------------------------------------------------- 8: VNF configuration

  /** Writing into `df[0]` raises when there is no deployment flavour yet. */
  function FirstDf(out: Vnfd): Result<Df, TranslationError>
  {
    match out.df
    case None => Err(KeyError("df"))
    case Some(dfs) => if |dfs| == 0 then Err(IndexError) else Ok(dfs[0])
  }

  function WithFirstDf(out: Vnfd, d: Df): Vnfd
    requires out.df.Some? && |out.df.value| > 0
  {
    out.(df := Some(out.df.value[0 := d]))
  }

  function VnfConfiguration(v: Im.Vnfd, out: Vnfd): Result<Vnfd, TranslationError>
  {
    match v.vnfConfiguration
    case None => Ok(out)
    case Some(b) =>
      match FirstDf(out)
      case Err(e) => Err(e)
      case Ok(d) =>
        Ok(WithFirstDf(out, d.(vnfConfigurationId := Some(DefaultVnfConfigurationId)))
             .(vnfConfiguration := Some([Configuration(DefaultVnfConfigurationId, b)])))
  }

  // ---------------------------------------------------------------- 9: IP profiles

  /** ip-profile-ref -> internal VLD id; a later VLD wins. */
  function IpProfileRefIndex(vlds: seq<Im.InternalVld>): map<string, string>
  {
    if vlds == [] then map[] else
      var m := IpProfileRefIndex(vlds[..|vlds| - 1]);
      var vld := vlds[|vlds| - 1];
      if Im.Truthy(vld.ipProfileRef) then m[vld.ipProfileRef.value := vld.id] else m
  }

  function L3ProtocolDataOf(p: Im.IpProfile, vlId: string): Option<L3ProtocolData>
  {
    match p.params
    case None => None
    case Some(pp) =>
      Some(L3ProtocolData(
        L3ProtocolDataName(vlId), IfTruthy(pp.ipVersion), IfTruthy(pp.subnetAddress),
        IfTruthy(pp.gatewayAddress), IfTruthy(pp.securityGroup),
        if pp.dhcpParams.Some? && pp.dhcpParams.value.enabled == Some(true) then Some(true) else None,
        IfTruthy(p.description)))
  }

  function VirtualLinkProfileOf(p: Im.IpProfile, vlId: string): VirtualLinkProfile
  {
    VirtualLinkProfile(vlId, "", L3ProtocolDataOf(p, vlId))
  }

  /** The virtual-link-profiles of the first `profiles`; a name no VLD refers to raises. */
  function VirtualLinkProfiles(profiles: seq<Im.IpProfile>, index: map<string, string>): Result<seq<VirtualLinkProfile>, TranslationError>
  {
    if profiles == [] then Ok([]) else
      match VirtualLinkProfiles(profiles[..|profiles| - 1], index)
      case Err(e) => Err(e)
      case Ok(ps) =>
        var p := profiles[|profiles| - 1];
        if p.name !in index then Err(KeyError(p.name)) else Ok(ps + [VirtualLinkProfileOf(p, index[p.name])])
  }

  lemma {:induction false} VirtualLinkProfilesErrPrefix(profiles: seq<Im.IpProfile>, index: map<string, string>, n: nat)
    requires n <= |profiles| && VirtualLinkProfiles(profiles[..n], index).Err?
    ensures VirtualLinkProfiles(profiles, index) == VirtualLinkProfiles(profiles[..n], index)
    decreases |profiles|
  {
    if n < |profiles| {
      assert profiles[..|profiles| - 1][..n] == profiles[..n];
      VirtualLinkProfilesErrPrefix(profiles[..|profiles| - 1], index, n);
    } else {
      assert profiles[..n] == profiles;
    }
  }

  function IpProfiles(v: Im.Vnfd, out: Vnfd): Result<Vnfd, TranslationError>
  {
    match VirtualLinkProfiles(v.ipProfiles, IpProfileRefIndex(v.internalVlds))
    case Err(e) => Err(e)
    case Ok(ps) =>
      if |ps| == 0 then Ok(out) else
        match FirstDf(out)
        case Err(e) => Err(e)
        case Ok(d) => Ok(WithFirstDf(out, d.(virtualLinkProfile := Some(ps))))
  }

  // ---------------------------------------------------------------- 10: monitoring parameters

  function IndexMetrics(m: map<(string, string), string>, vduId: string, mps: seq<Im.VduMonitoringParam>): map<(string, string), string>
  {
    if mps == [] then m else
      var m' := IndexMetrics(m, vduId, mps[..|mps| - 1]);
      var mp := mps[|mps| - 1];
      if Im.Truthy(mp.nfviMetric) then m'[(vduId, mp.id) := mp.nfviMetric.value] else m'
  }

  /** (vdu id, vdu monitoring-param id) -> nfvi-metric, for the metrics that are set. */
  function MetricIndex(vdus: seq<Im.Vdu>): map<(string, string), string>
  {
    if vdus == [] then map[] else
      IndexMetrics(MetricIndex(vdus[..|vdus| - 1]), vdus[|vdus| - 1].id, vdus[|vdus| - 1].monitoringParams)
  }

  function PerformanceMetric(r: Im.VduMonitoringParamRef, metrics: map<(string, string), string>): Option<string>
  {
    if r.vduRef.Some? && r.paramRef.Some? && (r.vduRef.value, r.paramRef.value) in metrics
    then Some(metrics[(r.vduRef.value, r.paramRef.value)]) else None
  }

  function MonitoringParameterOf(mp: Im.MonitoringParam, metrics: map<(string, string), string>): MonitoringParameter
  {
    MonitoringParameter(mp.id, IfTruthy(mp.name),
      match mp.vduMonitoringParam
      case None => None
      case Some(r) => PerformanceMetric(r, metrics))
  }

  /** `mp` appended to the monitoring-parameter list of every VDU whose id is `vduRef`. */
  function AttachMonitoring(vdus: seq<Vdu>, vduRef: Option<string>, mp: MonitoringParameter): (r: seq<Vdu>)
    ensures |r| == |vdus|
  {
    seq(|vdus|, i requires 0 <= i < |vdus| =>
      if Some(vdus[i].id) == vduRef
      then vdus[i].(monitoringParameter := Some(vdus[i].monitoringParameter.GetOr([]) + [mp]))
      else vdus[i])
  }

  function AttachMonitoringParams(vdus: Option<seq<Vdu>>, mps: seq<Im.MonitoringParam>, metrics: map<(string, string), string>): Option<seq<Vdu>>
  {
    if mps == [] then vdus else
      var vs := AttachMonitoringParams(vdus, mps[..|mps| - 1], metrics);
      var mp := mps[|mps| - 1];
      match mp.vduMonitoringParam
      case None => vs
      case Some(r) =>
        match vs
        case None => None
        case Some(s) => Some(AttachMonitoring(s, r.vduRef, MonitoringParameterOf(mp, metrics)))
  }

  function MonitoringParams(v: Im.Vnfd, out: Vnfd): Vnfd
  {
    out.(vdu := AttachMonitoringParams(out.vdu, v.monitoringParams, MetricIndex(v.vdus)))
  }

  // ---------------------------------------------------------------- 11: scaling groups

  function VduDeltaOf(e: Im.ScalingGroupVdu): VduDelta
  {
    VduDelta(IfNonZero(e.count), IfTruthy(e.vduIdRef))
  }

  function ScalingAspectOf(g: Im.ScalingGroup): ScalingAspect
  {
    ScalingAspect(g.name, g.name, IfNonZero(g.maxInstanceCount), g.scalingPolicy, g.scalingConfigAction,
                  [Delta(DeltaId(g.name), SetIfNonEmpty(None, Map(g.vdus, VduDeltaOf)))])
  }

  function ScalingGroups(v: Im.Vnfd, out: Vnfd): Result<Vnfd, TranslationError>
  {
    var aspects := Map(v.scalingGroups, ScalingAspectOf);
    if |aspects| == 0 then Ok(out) else
      match FirstDf(out)
      case Err(e) => Err(e)
      case Ok(d) => Ok(WithFirstDf(out, d.(scalingAspect := Some(aspects))))
  }

  // ---------------------------------------------------------------- 12-14: kdu, k8s-cluster, placement-groups

  const MinimalDf := Df(DefaultDfId, None, None, None, None, None)

  function Kdus(v: Im.Vnfd, out: Vnfd): Vnfd
  {
    match v.kdu
    case None => out
    case Some(k) =>
      out.(kdu := Some(k), df := if out.df.None? || |out.df.value| == 0 then Some([MinimalDf]) else out.df)
  }

  function K8sNetId(n: Im.K8sNet): string { n.id }

  function K8sNetExtCpd(n: Im.K8sNet): Option<ExtCpd>
  {
    if Im.Truthy(n.externalConnectionPointRef) then Some(K8sExtCpd(ExtCpdId(n.externalConnectionPointRef.value), n.id)) else None
  }

  function K8sClusters(v: Im.Vnfd, out: Vnfd): Vnfd
  {
    match v.k8sCluster
    case None => out
    case Some(c) =>
      var exts := Collect(c.nets, K8sNetExtCpd);
      out.(k8sCluster := Some(K8sCluster(IfTruthy(c.version), SetIfNonEmpty(None, c.cni), SetIfNonEmpty(None, Map(c.nets, K8sNetId)))),
           extCpd := if |exts| > 0 then Some(out.extCpd.GetOr([]) + exts) else out.extCpd)
  }

  function PlacementGroups(v: Im.Vnfd, out: Vnfd): Vnfd
  {
    if v.placementGroups.Some? then out.(placementGroups := v.placementGroups) else out
  }

  // ---------------------------------------------------------------- the pipeline

  /** The fourteen stages in order, stopping at the first that raises. */
  function TranslateVnfd(v: Im.Vnfd): Result<Vnfd, TranslationError>
  {
    var s1 := BasicData(v, EmptyVnfd);
    match MgmtCp(v, s1)
    case Err(e) => Err(e)
    case Ok(s2) =>
      var s6 := Vdus(v, Images(v, GuestEpa(v, Flavors(v, s2))));
      match InternalVlds(v, s6)
      case Err(e) => Err(e)
      case Ok(s7) =>
        match VnfConfiguration(v, s7)
        case Err(e) => Err(e)
        case Ok(s8) =>
          match IpProfiles(v, s8)
          case Err(e) => Err(e)
          case Ok(s9) =>
            match ScalingGroups(v, MonitoringParams(v, s9))
            case Err(e) => Err(e)
            case Ok(s11) => Ok(PlacementGroups(v, K8sClusters(v, Kdus(v, s11))))
  }
}
