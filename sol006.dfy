/** The ETSI NFV SOL006 records the translation engine builds. An `Option` field is a key
    that may be absent from the output mapping (`VnfProfile.vnfdId` excepted, see there); a
    `seq` field is a key that is always present. */
module Sol006 {
  import opened Wrappers
  import Im

  datatype VirtualCpuPinning = VirtualCpuPinning(policy: Option<string>, threadPolicy: Option<string>)

  datatype VirtualCpu = VirtualCpu(numVirtualCpu: Option<int>, pinning: Option<VirtualCpuPinning>, cpuQuota: Option<Im.Subtree>)

  datatype VirtualMemory = VirtualMemory(
    size: Option<real>,
    mempageSize: Option<string>,
    numaEnabled: Option<bool>,
    numaNodePolicy: Option<Im.Subtree>,
    memQuota: Option<Im.Subtree>)

  datatype VirtualComputeDesc = VirtualComputeDesc(id: string, virtualCpu: Option<VirtualCpu>, virtualMemory: Option<VirtualMemory>)

  datatype VirtualStorageDesc = VirtualStorageDesc(id: string, sizeOfStorage: Option<int>, diskIoQuota: Option<Im.Subtree>)

  datatype SwImageDesc = SwImageDesc(id: string, name: string, image: string, vimType: Option<string>)

  datatype VirtualNetworkInterfaceRequirement = VirtualNetworkInterfaceRequirement(
    name: string, virtualInterface: Option<Im.Subtree>, position: Option<int>)

  datatype IntCpd = IntCpd(
    id: string,
    virtualNetworkInterfaceRequirement: seq<VirtualNetworkInterfaceRequirement>,
    intVirtualLinkDesc: Option<string>)

  datatype MonitoringParameter = MonitoringParameter(id: string, name: Option<string>, performanceMetric: Option<string>)

  datatype Vdu = Vdu(
    id: string,
    description: Option<string>,
    name: Option<string>,
    cloudInitFile: Option<string>,
    supplementalBootData: Option<Im.Subtree>,
    alarm: Option<Im.Subtree>,
    pduType: Option<string>,
    swImageDesc: Option<string>,
    alternativeSwImageDesc: Option<seq<string>>,
    virtualComputeDesc: Option<string>,
    virtualStorageDesc: Option<seq<string>>,
    intCpd: seq<IntCpd>,
    monitoringParameter: Option<seq<MonitoringParameter>>)

  /** An external connection point: one linking a VDU's internal one, or a K8s cluster net. */
  datatype ExtCpd =
    | VduExtCpd(id: string, vduId: string, cpd: string,
                portSecurityEnabled: Option<bool>, portSecurityDisableStrategy: Option<string>)
    | K8sExtCpd(id: string, k8sClusterNet: string)

  datatype VduProfile = VduProfile(
    id: string,
    minNumberOfInstances: int,
    maxNumberOfInstances: Option<int>,
    vduConfigurationId: Option<string>)

  datatype VduLevel = VduLevel(vduId: string, numberOfInstances: int)

  datatype InstantiationLevel = InstantiationLevel(id: string, vduLevel: seq<VduLevel>)

  datatype L3ProtocolData = L3ProtocolData(
    name: string,
    ipVersion: Option<string>,
    cidr: Option<string>,
    gatewayIp: Option<string>,
    securityGroup: Option<string>,
    dhcpEnabled: Option<bool>,
    description: Option<string>)

  /** A virtual-link-profile; `l3ProtocolData` stands for `virtual-link-protocol-data.l3-protocol-data`. */
  datatype VirtualLinkProfile = VirtualLinkProfile(id: string, flavour: string, l3ProtocolData: Option<L3ProtocolData>)

  datatype VduDelta = VduDelta(numberOfInstances: Option<int>, id: Option<string>)

  datatype Delta = Delta(id: string, vduDelta: Option<seq<VduDelta>>)

  /** A scaling-aspect; `deltas` stands for `aspect-delta-details.deltas`. */
  datatype ScalingAspect = ScalingAspect(
    id: string,
    name: string,
    maxScaleLevel: Option<int>,
    scalingPolicy: Option<Im.Subtree>,
    scalingConfigAction: Option<Im.Subtree>,
    deltas: seq<Delta>)

  datatype Df = Df(
    id: string,
    vduProfile: Option<seq<VduProfile>>,
    instantiationLevel: Option<seq<InstantiationLevel>>,
    vnfConfigurationId: Option<string>,
    virtualLinkProfile: Option<seq<VirtualLinkProfile>>,
    scalingAspect: Option<seq<ScalingAspect>>)

  /** A vdu-configuration or vnf-configuration entry: the verbatim body with its generated id. */
  datatype Configuration = Configuration(id: string, body: Im.Subtree)

  datatype K8sCluster = K8sCluster(version: Option<string>, cni: Option<seq<string>>, nets: Option<seq<string>>)

  /** The SOL006 VNFD mapping; every key may be absent. `intVirtualLinkDesc` holds the ids of
      the `int-virtual-link-desc` entries, `k8sCluster.nets` the ids of the net entries. */
  datatype Vnfd = Vnfd(
    id: Option<string>,
    productName: Option<string>,
    description: Option<string>,
    provider: Option<string>,
    version: Option<string>,
    mgmtCp: Option<string>,
    virtualStorageDesc: Option<seq<VirtualStorageDesc>>,
    virtualComputeDesc: Option<seq<VirtualComputeDesc>>,
    swImageDesc: Option<seq<SwImageDesc>>,
    vdu: Option<seq<Vdu>>,
    extCpd: Option<seq<ExtCpd>>,
    intVirtualLinkDesc: Option<seq<string>>,
    df: Option<seq<Df>>,
    vduConfiguration: Option<seq<Configuration>>,
    vnfConfiguration: Option<seq<Configuration>>,
    kdu: Option<Im.Subtree>,
    k8sCluster: Option<K8sCluster>,
    placementGroups: Option<Im.Subtree>)

  datatype ConstituentCpd = ConstituentCpd(constituentBaseElementId: string, constituentCpdId: string, ipAddress: Option<string>)

  datatype VirtualLinkConnectivity = VirtualLinkConnectivity(virtualLinkProfileId: string, constituentCpdId: seq<ConstituentCpd>)

  /** A vnf-profile. Its `vnfd-id` key is always written; `vnfdId == None` is that key holding
      a null value, not an absent key. */
  datatype VnfProfile = VnfProfile(id: string, vnfdId: Option<string>, virtualLinkConnectivity: seq<VirtualLinkConnectivity>)

  datatype NsDf = NsDf(id: string, vnfProfile: seq<VnfProfile>)

  datatype VirtualLinkDesc = VirtualLinkDesc(id: string, mgmtNetwork: Option<bool>, vimNetworkName: Option<string>)

  /** The SOL006 NSD mapping; every key may be absent. */
  datatype Nsd = Nsd(
    id: Option<string>,
    name: Option<string>,
    description: Option<string>,
    designer: Option<string>,
    version: Option<string>,
    vnfdId: Option<seq<string>>,
    df: Option<seq<NsDf>>,
    virtualLinkDesc: Option<seq<VirtualLinkDesc>>)

  /** The translated document: `{"vnfd": ...}` or `{"nsd": {"nsd": [...]}}`. */
  datatype Document = VnfdDocument(vnfd: Vnfd) | NsdDocument(nsd: seq<Nsd>)

  /** The output mapping before any stage has written to it. */
  const EmptyVnfd := Vnfd(None, None, None, None, None, None, None, None, None, None, None, None, None, None, None, None, None, None)
  const EmptyNsd := Nsd(None, None, None, None, None, None, None, None)
}
