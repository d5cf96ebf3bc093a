/** The IM (source information model) records the translation engine reads.

    Conventions: a scalar key is an `Option` and the engine's truthiness tests are written
    out (`Truthy`, `NonZero`). A nested block or a verbatim subtree is `None` when its key is
    absent OR its mapping is empty, so `Some` always means a non-empty (truthy) block, even
    when none of the keys the engine reads is set. The one exception is `mgmtInterface`,
    which the engine subscripts without a truthiness test. A list key is a `seq`, an absent list
    being the empty sequence (the engine iterates `d.get(k, ())`). */
module Im {
  import opened Wrappers

  /** A subtree the engine copies verbatim (kdu, alarm, scaling-policy, ...), kept as its
      serialized text; the engine never looks inside it. */
  datatype Subtree = Subtree(text: string)

  /** Python truthiness of an optional string: present and non-empty. */
  predicate Truthy(s: Option<string>) { s.Some? && s.value != "" }

  /** Python truthiness of an optional integer: present and non-zero. */
  predicate NonZero(n: Option<int>) { n.Some? && n.value != 0 }

  datatype VmFlavor = VmFlavor(vcpuCount: Option<int>, memoryMb: Option<int>, storageGb: Option<int>)

  datatype GuestEpa = GuestEpa(
    mempageSize: Option<string>,
    numaNodePolicy: Option<Subtree>,
    memQuota: Option<Subtree>,
    cpuPinningPolicy: Option<string>,
    cpuThreadPinningPolicy: Option<string>,
    cpuQuota: Option<Subtree>,
    diskIoQuota: Option<Subtree>)

  datatype AlternativeImage = AlternativeImage(image: string, vimType: Option<string>)

  datatype Interface = Interface(
    name: string,
    virtualInterface: Option<Subtree>,
    position: Option<int>,
    externalConnectionPointRef: Option<string>,
    internalConnectionPointRef: Option<string>)

  /** A VDU-local monitoring parameter. */
  datatype VduMonitoringParam = VduMonitoringParam(id: string, nfviMetric: Option<string>)

  datatype Vdu = Vdu(
    id: string,
    name: Option<string>,
    description: Option<string>,
    cloudInitFile: Option<string>,
    supplementalBootData: Option<Subtree>,
    alarm: Option<Subtree>,
    pduType: Option<string>,
    image: Option<string>,
    alternativeImages: seq<AlternativeImage>,
    vmFlavor: Option<VmFlavor>,
    guestEpa: Option<GuestEpa>,
    interfaces: seq<Interface>,
    monitoringParams: seq<VduMonitoringParam>,
    vduConfiguration: Option<Subtree>,
    count: Option<int>)

  datatype ConnectionPoint = ConnectionPoint(
    name: Option<string>,
    portSecurityEnabled: Option<bool>,
    portSecurityDisableStrategy: Option<string>)

  /** An internal VLD; `internalConnectionPoints` holds the `id-ref` of each entry. */
  datatype InternalVld = InternalVld(id: string, internalConnectionPoints: seq<string>, ipProfileRef: Option<string>)

  datatype DhcpParams = DhcpParams(enabled: Option<bool>)

  datatype IpProfileParams = IpProfileParams(
    ipVersion: Option<string>,
    subnetAddress: Option<string>,
    gatewayAddress: Option<string>,
    securityGroup: Option<string>,
    dhcpParams: Option<DhcpParams>)

  datatype IpProfile = IpProfile(name: string, description: Option<string>, params: Option<IpProfileParams>)

  datatype VduMonitoringParamRef = VduMonitoringParamRef(vduRef: Option<string>, paramRef: Option<string>)

  /** A VNFD-level monitoring parameter. */
  datatype MonitoringParam = MonitoringParam(id: string, name: Option<string>, vduMonitoringParam: Option<VduMonitoringParamRef>)

  datatype ScalingGroupVdu = ScalingGroupVdu(vduIdRef: Option<string>, count: Option<int>)

  datatype ScalingGroup = ScalingGroup(
    name: string,
    vdus: seq<ScalingGroupVdu>,
    minInstanceCount: Option<int>,
    maxInstanceCount: Option<int>,
    scalingPolicy: Option<Subtree>,
    scalingConfigAction: Option<Subtree>)

  datatype K8sNet = K8sNet(id: string, externalConnectionPointRef: Option<string>)

  datatype K8sCluster = K8sCluster(version: Option<string>, cni: seq<string>, nets: seq<K8sNet>)

  datatype MgmtInterface = MgmtInterface(cp: Option<string>)

  datatype Vnfd = Vnfd(
    id: string,
    name: Option<string>,
    description: Option<string>,
    vendor: Option<string>,
    version: Option<string>,
    // `None` only when the mgmt-interface key is absent; an empty mapping `{}` is
    // `Some(MgmtInterface(None))`, on which the engine fails looking up `cp`.
    mgmtInterface: Option<MgmtInterface>,
    vdus: seq<Vdu>,
    connectionPoints: seq<ConnectionPoint>,
    internalVlds: seq<InternalVld>,
    ipProfiles: seq<IpProfile>,
    monitoringParams: seq<MonitoringParam>,
    scalingGroups: seq<ScalingGroup>,
    vnfConfiguration: Option<Subtree>,
    kdu: Option<Subtree>,
    k8sCluster: Option<K8sCluster>,
    placementGroups: Option<Subtree>)

  /** `member-vnf-index-ref`, which a decoded document may hold as an integer or a string. */
  datatype MemberIndex = IndexInt(n: int) | IndexStr(s: string)

  /** A connection point reference of an NSD VLD. `id` is a key the reference may carry of
      its own; the engine's merge of a reference into its VLD then lets it win. */
  datatype VnfdConnectionPointRef = VnfdConnectionPointRef(
    id: Option<string>,
    memberVnfIndexRef: Option<MemberIndex>,
    vnfdIdRef: Option<string>,
    vnfdConnectionPointRef: Option<string>,
    ipAddress: Option<string>)

  /** An NSD VLD. `memberVnfIndexRef`, `vnfdIdRef` and `ipAddress` are reference keys set at the
      VLD level, which every reference without its own value inherits. */
  datatype NsVld = NsVld(
    id: string,
    mgmtNetwork: Option<bool>,
    vimNetworkName: Option<string>,
    memberVnfIndexRef: Option<MemberIndex>,
    vnfdIdRef: Option<string>,
    ipAddress: Option<string>,
    connectionPointRefs: seq<VnfdConnectionPointRef>)

  datatype ConstituentVnfd = ConstituentVnfd(vnfdIdRef: Option<string>)

  datatype Nsd = Nsd(
    id: string,
    name: Option<string>,
    description: Option<string>,
    vendor: Option<string>,
    version: Option<string>,
    constituentVnfds: seq<ConstituentVnfd>,
    vlds: seq<NsVld>)

  /** The inner mapping of the envelope `{<root>: {"vnfd": [...]}}` or `{<root>: {"nsd": [...]}}`:
      each inner key is `None` when absent. */
  datatype Catalog = Catalog(vnfd: Option<seq<Vnfd>>, nsd: Option<seq<Nsd>>)

  /** A decoded IM document: its single top-level key and the catalog under it. */
  datatype Document = Document(rootKey: string, catalog: Catalog)
}
