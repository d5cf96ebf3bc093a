/** The read-only loops of the VNFD translation (osm_im/im_translation.py): the scans that
    find a descriptor, build a per-VDU record or an index and return it, each proved to
    compute the corresponding function of module VnfdRules. */
module VnfdHelpers {
  import opened Wrappers
  import opened Errors
  import opened Seqs
  import Im
  import opened Sol006
  import opened VnfdRules

  /** The scan for a VDU's compute or storage descriptor: the last one with that id is kept. */
  method FindLastDesc<T>(descs: seq<T>, key: T -> string, id: string) returns (found: Option<nat>)
    ensures found == LastIndex(descs, key, id)
  {
    found := None;
    for i := 0 to |descs|
      invariant found == LastIndex(descs[..i], key, id)
    {
      TakeSnoc(descs, i);
      if key(descs[i]) == id {
        found := Some(i);
      }
    }
    TakeAll(descs);
  }

  /** The VDU's `sw-image-desc` and `alternative-sw-image-desc` keys. */
  method GetVduImages(vdu: Im.Vdu) returns (swImage: Option<string>, alternatives: Option<seq<string>>)
    ensures swImage == VduSwImage(vdu)
    ensures alternatives == VduAlternativeSwImages(vdu)
  {
    swImage := if Im.Truthy(vdu.image) then vdu.image else None;
    var names: seq<string> := [];
    var alts := vdu.alternativeImages;
    for i := 0 to |alts|
      invariant names == Map(alts[..i], AlternativeImageName)
    {
      TakeSnoc(alts, i);
      MapSnoc(alts[..i], alts[i], AlternativeImageName);
      names := names + [alts[i].image];
    }
    TakeAll(alts);
    alternatives := if |names| > 0 then Some(names) else None;
  }

  /** The image scan's "append unless its image is already listed" step. */
  method KeepFirstImage(descs: seq<SwImageDesc>, allImages: set<string>, desc: SwImageDesc, ghost seen: seq<SwImageDesc>)
    returns (descs': seq<SwImageDesc>, allImages': set<string>)
    requires descs == FirstOccurrences(seen, ImageId) && allImages == KeySet(descs, ImageId)
    ensures descs' == FirstOccurrences(seen + [desc], ImageId)
    ensures allImages' == KeySet(descs', ImageId)
  {
    FirstOccurrencesSnoc(seen, desc, ImageId);
    descs', allImages' := descs, allImages;
    if desc.id !in allImages {
      KeySetSnoc(descs, desc, ImageId);
      descs' := descs + [desc];
      allImages' := allImages + {desc.id};
    }
  }

  /** One VDU's part of the image scan: its primary image, then its alternative images. */
  method AddVduImageDescs(d: Im.Vdu, descs: seq<SwImageDesc>, allImages: set<string>, ghost visited: seq<SwImageDesc>)
    returns (descs': seq<SwImageDesc>, allImages': set<string>)
    requires descs == FirstOccurrences(visited, ImageId) && allImages == KeySet(descs, ImageId)
    ensures descs' == FirstOccurrences(visited + VduImageCandidates(d), ImageId)
    ensures allImages' == KeySet(descs', ImageId)
  {
    descs', allImages' := descs, allImages;
    ghost var seen := visited;
    if Im.Truthy(d.image) {
      var desc := SwImageDesc(d.image.value, d.image.value, d.image.value, None);
      descs', allImages' := KeepFirstImage(descs', allImages', desc, visited);
      seen := visited + [desc];
    }
    descs', allImages' := AddAlternativeImageDescs(d.alternativeImages, descs', allImages', seen);
    assert visited + VduImageCandidates(d) == seen + Map(d.alternativeImages, AlternativeImageDesc);
  }

  /** The alternative images of one VDU, in order, each kept unless its image is already listed. */
  method AddAlternativeImageDescs(alts: seq<Im.AlternativeImage>, descs: seq<SwImageDesc>, allImages: set<string>, ghost seen: seq<SwImageDesc>)
    returns (descs': seq<SwImageDesc>, allImages': set<string>)
    requires descs == FirstOccurrences(seen, ImageId) && allImages == KeySet(descs, ImageId)
    ensures descs' == FirstOccurrences(seen + Map(alts, AlternativeImageDesc), ImageId)
    ensures allImages' == KeySet(descs', ImageId)
  {
    descs', allImages' := descs, allImages;
    assert seen + Map(alts[..0], AlternativeImageDesc) == seen;
    for j := 0 to |alts|
      invariant descs' == FirstOccurrences(seen + Map(alts[..j], AlternativeImageDesc), ImageId)
      invariant allImages' == KeySet(descs', ImageId)
    {
      var a := alts[j];
      var desc := SwImageDesc(a.image, a.image, a.image, None);
      if Im.Truthy(a.vimType) {
        desc := desc.(vimType := a.vimType);
      }
      TakeSnoc(alts, j);
      MapSnoc(alts[..j], a, AlternativeImageDesc);
      ghost var before := seen + Map(alts[..j], AlternativeImageDesc);
      assert seen + Map(alts[..j + 1], AlternativeImageDesc) == before + [desc];
      descs', allImages' := KeepFirstImage(descs', allImages', desc, before);
    }
    TakeAll(alts);
  }

  /** The VDU's descriptor and the external connection points its interfaces declare. */
  method GetVduDescriptor(d: Im.Vdu, cps: seq<Im.ConnectionPoint>) returns (descriptor: Vdu, exts: seq<ExtCpd>)
    ensures descriptor == VduDescriptorOf(d)
    ensures exts == ExtCpdsOf(d.id, d.interfaces, cps)
  {
    var swImage, alternatives := GetVduImages(d);
    var ints;
    ints, exts := GetIntAndExtCpds(d, cps);
    descriptor := Vdu(d.id, IfTruthy(d.description), IfTruthy(d.name), IfTruthy(d.cloudInitFile),
                      d.supplementalBootData, d.alarm, IfTruthy(d.pduType),
                      swImage, alternatives, VduComputeRef(d), VduStorageRef(d), ints, None);
  }

  /** The VDU stage's scan: per VDU its descriptor, external connection points, configuration,
      vdu-profile and vdu-level, in VDU order. */
  method GetVduEntries(v: Im.Vnfd)
    returns (vdus: seq<Vdu>, exts: seq<ExtCpd>, configurations: seq<Configuration>, profiles: seq<VduProfile>, levels: seq<VduLevel>)
    ensures vdus == Map(v.vdus, VduDescriptorOf)
    ensures exts == AllExtCpds(v.vdus, v.connectionPoints)
    ensures configurations == Collect(v.vdus, VduConfigurationOf)
    ensures profiles == VduProfiles(v.vdus, v.scalingGroups)
    ensures levels == Map(v.vdus, VduLevelOf)
  {
    vdus, exts, configurations, profiles, levels := [], [], [], [], [];
    for i := 0 to |v.vdus|
      invariant EntriesOf(v.vdus[..i], v.connectionPoints, v.scalingGroups, vdus, exts, configurations, profiles, levels)
    {
      var d := v.vdus[i];
      TakeSnoc(v.vdus, i);
      VdusSnoc(v.vdus[..i], d, v.connectionPoints, v.scalingGroups);
      var descriptor, vduExts := GetVduDescriptor(d, v.connectionPoints);
      exts := exts + vduExts;
      var profile := GetVduProfile(d, v.scalingGroups);
      if d.vduConfiguration.Some? {
        configurations := configurations + [Configuration(VduConfigurationId(d.id), d.vduConfiguration.value)];
      }
      profiles := profiles + [profile];
      levels := levels + [VduLevel(d.id, InitialInstances(d))];
      vdus := vdus + [descriptor];
    }
    TakeAll(v.vdus);
  }

  /** The five lists of the VDU stage's scan after the VDUs `done`. */
  ghost predicate EntriesOf(done: seq<Im.Vdu>, cps: seq<Im.ConnectionPoint>, groups: seq<Im.ScalingGroup>,
                            vdus: seq<Vdu>, exts: seq<ExtCpd>, configurations: seq<Configuration>, profiles: seq<VduProfile>, levels: seq<VduLevel>)
  {
    && vdus == Map(done, VduDescriptorOf)
    && exts == AllExtCpds(done, cps)
    && configurations == Collect(done, VduConfigurationOf)
    && profiles == VduProfiles(done, groups)
    && levels == Map(done, VduLevelOf)
  }

  /** One int-cpd per interface and one ext-cpd per interface with an external reference. */
  method GetIntAndExtCpds(vdu: Im.Vdu, cps: seq<Im.ConnectionPoint>) returns (ints: seq<IntCpd>, exts: seq<ExtCpd>)
    ensures ints == Map(vdu.interfaces, IntCpdOf)
    ensures exts == ExtCpdsOf(vdu.id, vdu.interfaces, cps)
  {
    ints, exts := [], [];
    var ifaces := vdu.interfaces;
    for i := 0 to |ifaces|
      invariant ints == Map(ifaces[..i], IntCpdOf)
      invariant exts == ExtCpdsOf(vdu.id, ifaces[..i], cps)
    {
      var iface := ifaces[i];
      TakeSnoc(ifaces, i);
      MapSnoc(ifaces[..i], iface, IntCpdOf);
      var intCpd := IntCpd(IntCpdId(iface.name),
                           [VirtualNetworkInterfaceRequirement(iface.name, iface.virtualInterface, iface.position)],
                           None);
      if Im.Truthy(iface.externalConnectionPointRef) {
        var ref := iface.externalConnectionPointRef.value;
        var enabled: Option<bool> := None;
        var strategy: Option<string> := None;
        for j := 0 to |cps|
          invariant enabled == PortSecurityEnabledOf(cps[..j], ref)
          invariant strategy == PortSecurityDisableStrategyOf(cps[..j], ref)
        {
          TakeSnoc(cps, j);
          var cp := cps[j];
          if cp.name.GetOr("") == ref {
            if cp.portSecurityEnabled.Some? {
              enabled := cp.portSecurityEnabled;
            }
            if Im.Truthy(cp.portSecurityDisableStrategy) {
              strategy := cp.portSecurityDisableStrategy;
            }
          }
        }
        TakeAll(cps);
        exts := exts + [VduExtCpd(ExtCpdId(ref), vdu.id, intCpd.id, enabled, strategy)];
      }
      ints := ints + [intCpd];
    }
    TakeAll(ifaces);
  }

  /** The VDU's vdu-profile: every scaling group entry that names the VDU overwrites the bounds. */
  method GetVduProfile(vdu: Im.Vdu, groups: seq<Im.ScalingGroup>) returns (p: VduProfile)
    ensures p == VduProfileOf(vdu, groups)
  {
    var initial := InitialInstances(vdu);
    var minInstances := initial;
    var maxInstances: Option<int> := None;
    for i := 0 to |groups|
      invariant (minInstances, maxInstances) == InstanceBounds(initial, LastReferencingGroup(groups[..i], vdu.id))
    {
      TakeSnoc(groups, i);
      var g := groups[i];
      ghost var before := (minInstances, maxInstances);
      for j := 0 to |g.vdus|
        invariant (exists k :: 0 <= k < j && g.vdus[k].vduIdRef == Some(vdu.id)) ==>
                    (minInstances, maxInstances) == InstanceBounds(initial, Some(g))
        invariant !(exists k :: 0 <= k < j && g.vdus[k].vduIdRef == Some(vdu.id)) ==>
                    (minInstances, maxInstances) == before
      {
        if g.vdus[j].vduIdRef == Some(vdu.id) {
          minInstances := g.minInstanceCount.GetOr(0) + initial;
          maxInstances := Some(g.maxInstanceCount.GetOr(1) + initial);
        }
      }
      if GroupReferences(g, vdu.id) {
        var e :| e in g.vdus && e.vduIdRef == Some(vdu.id);
        var k :| 0 <= k < |g.vdus| && g.vdus[k] == e;
      } else {
        assert forall k :: 0 <= k < |g.vdus| ==> g.vdus[k] in g.vdus;
      }
    }
    TakeAll(groups);
    p := VduProfile(vdu.id, minInstances, maxInstances,
                    if vdu.vduConfiguration.Some? then Some(VduConfigurationId(vdu.id)) else None);
  }

  /** internal-connection-point-ref -> (vdu id, interface name) over all VDUs' interfaces. */
  method BuildIntCpRefIndex(vdus: seq<Im.Vdu>) returns (index: map<string, (string, string)>)
    ensures index == IntCpRefIndex(vdus)
  {
    index := map[];
    for i := 0 to |vdus|
      invariant index == IntCpRefIndex(vdus[..i])
    {
      TakeSnoc(vdus, i);
      var ifaces := vdus[i].interfaces;
      ghost var start := index;
      for j := 0 to |ifaces|
        invariant index == IndexInterfaces(start, vdus[i].id, ifaces[..j])
      {
        TakeSnoc(ifaces, j);
        var ref := ifaces[j].internalConnectionPointRef;
        if Im.Truthy(ref) {
          index := index[ref.value := (vdus[i].id, ifaces[j].name)];
        }
      }
      TakeAll(ifaces);
    }
    TakeAll(vdus);
  }

  /** ip-profile-ref -> internal VLD id over the internal VLDs. */
  method BuildIpProfileRefIndex(vlds: seq<Im.InternalVld>) returns (index: map<string, string>)
    ensures index == IpProfileRefIndex(vlds)
  {
    index := map[];
    for i := 0 to |vlds|
      invariant index == IpProfileRefIndex(vlds[..i])
    {
      TakeSnoc(vlds, i);
      if Im.Truthy(vlds[i].ipProfileRef) {
        index := index[vlds[i].ipProfileRef.value := vlds[i].id];
      }
    }
    TakeAll(vlds);
  }

  /** (vdu id, monitoring-param id) -> nfvi-metric over all VDUs' monitoring params. */
  method BuildMetricIndex(vdus: seq<Im.Vdu>) returns (index: map<(string, string), string>)
    ensures index == MetricIndex(vdus)
  {
    index := map[];
    for i := 0 to |vdus|
      invariant index == MetricIndex(vdus[..i])
    {
      TakeSnoc(vdus, i);
      var mps := vdus[i].monitoringParams;
      ghost var start := index;
      for j := 0 to |mps|
        invariant index == IndexMetrics(start, vdus[i].id, mps[..j])
      {
        TakeSnoc(mps, j);
        if Im.Truthy(mps[j].nfviMetric) {
          index := index[(vdus[i].id, mps[j].id) := mps[j].nfviMetric.value];
        }
      }
      TakeAll(mps);
    }
    TakeAll(vdus);
  }

  /** The scaling-aspect of one scaling group, with one delta listing a vdu-delta per entry. */
  method GetScalingAspect(g: Im.ScalingGroup) returns (aspect: ScalingAspect)
    ensures aspect == ScalingAspectOf(g)
  {
    var deltas: seq<VduDelta> := [];
    for i := 0 to |g.vdus|
      invariant deltas == Map(g.vdus[..i], VduDeltaOf)
    {
      var e := g.vdus[i];
      TakeSnoc(g.vdus, i);
      MapSnoc(g.vdus[..i], e, VduDeltaOf);
      var delta := VduDelta(None, None);
      if Im.NonZero(e.count) {
        delta := delta.(numberOfInstances := e.count);
      }
      if Im.Truthy(e.vduIdRef) {
        delta := delta.(id := e.vduIdRef);
      }
      deltas := deltas + [delta];
    }
    TakeAll(g.vdus);
    aspect := ScalingAspect(g.name, g.name, IfNonZero(g.maxInstanceCount), g.scalingPolicy, g.scalingConfigAction,
                            [Delta(DeltaId(g.name), if |deltas| > 0 then Some(deltas) else None)]);
  }

  /** The flavor loop: one storage and one compute descriptor per VDU whose flavor asks for one. */
  method GetFlavorDescs(vdus: seq<Im.Vdu>) returns (storage: seq<VirtualStorageDesc>, compute: seq<VirtualComputeDesc>)
    ensures storage == Collect(vdus, FlavorStorageDesc)
    ensures compute == Collect(vdus, FlavorComputeDesc)
  {
    storage := [];
    compute := [];
    for i := 0 to |vdus|
      invariant storage == Collect(vdus[..i], FlavorStorageDesc)
      invariant compute == Collect(vdus[..i], FlavorComputeDesc)
    {
      var d := vdus[i];
      TakeSnoc(vdus, i);
      CollectSnoc(vdus[..i], d, FlavorStorageDesc);
      CollectSnoc(vdus[..i], d, FlavorComputeDesc);
      if d.vmFlavor.None? {
        continue;
      }
      var f := d.vmFlavor.value;
      var sd := VirtualStorageDesc(StorageDescId(d.id), None, None);
      var cd := VirtualComputeDesc(ComputeDescId(d.id), None, None);
      if Im.NonZero(f.storageGb) {
        sd := sd.(sizeOfStorage := f.storageGb);
        storage := storage + [sd];
      }
      if Im.NonZero(f.vcpuCount) {
        cd := cd.(virtualCpu := Some(VirtualCpu(f.vcpuCount, None, None)));
      }
      if Im.NonZero(f.memoryMb) {
        cd := cd.(virtualMemory := Some(VirtualMemory(Some(f.memoryMb.value as real / 1024.0), None, None, None, None)));
      }
      if cd.virtualCpu.Some? || cd.virtualMemory.Some? {
        compute := compute + [cd];
      }
    }
    TakeAll(vdus);
  }

  /** The image loop: each VDU's image and alternative images, the first descriptor per image kept. */
  method GetSwImageDescs(vdus: seq<Im.Vdu>) returns (descs: seq<SwImageDesc>)
    ensures descs == SwImageDescs(vdus)
  {
    descs := [];
    var allImages: set<string> := {};
    for i := 0 to |vdus|
      invariant descs == FirstOccurrences(ImageCandidates(vdus[..i]), ImageId)
      invariant allImages == KeySet(descs, ImageId)
    {
      TakeSnoc(vdus, i);
      descs, allImages := AddVduImageDescs(vdus[i], descs, allImages, ImageCandidates(vdus[..i]));
    }
    TakeAll(vdus);
  }

  /** The K8s network loop: the network ids and an ext-cpd per network with an external cp ref. */
  method GetK8sNetEntries(nets: seq<Im.K8sNet>) returns (ids: seq<string>, exts: seq<ExtCpd>)
    ensures ids == Map(nets, K8sNetId)
    ensures exts == Collect(nets, K8sNetExtCpd)
  {
    ids := [];
    exts := [];
    for i := 0 to |nets|
      invariant ids == Map(nets[..i], K8sNetId)
      invariant exts == Collect(nets[..i], K8sNetExtCpd)
    {
      var n := nets[i];
      TakeSnoc(nets, i);
      MapSnoc(nets[..i], n, K8sNetId);
      CollectSnoc(nets[..i], n, K8sNetExtCpd);
      if Im.Truthy(n.externalConnectionPointRef) {
        exts := exts + [K8sExtCpd(ExtCpdId(n.externalConnectionPointRef.value), n.id)];
      }
      ids := ids + [n.id];
    }
    TakeAll(nets);
  }

  /** The IP profile loop: one virtual-link-profile per IP profile; an unknown name raises. */
  method GetVirtualLinkProfiles(ips: seq<Im.IpProfile>, index: map<string, string>) returns (r: Result<seq<VirtualLinkProfile>, TranslationError>)
    ensures r == VirtualLinkProfiles(ips, index)
  {
    var profiles: seq<VirtualLinkProfile> := [];
    for i := 0 to |ips|
      invariant VirtualLinkProfiles(ips[..i], index) == Ok(profiles)
    {
      TakeSnoc(ips, i);
      var p := ips[i];
      if p.name !in index {
        VirtualLinkProfilesErrPrefix(ips, index, i + 1);
        return Err(KeyError(p.name));
      }
      var vlId := index[p.name];
      var l3: Option<L3ProtocolData> := None;
      if p.params.Some? {
        var pp := p.params.value;
        var data := L3ProtocolData(L3ProtocolDataName(vlId), None, None, None, None, None, None);
        if Im.Truthy(pp.ipVersion) { data := data.(ipVersion := pp.ipVersion); }
        if Im.Truthy(pp.subnetAddress) { data := data.(cidr := pp.subnetAddress); }
        if Im.Truthy(pp.gatewayAddress) { data := data.(gatewayIp := pp.gatewayAddress); }
        if Im.Truthy(pp.securityGroup) { data := data.(securityGroup := pp.securityGroup); }
        if pp.dhcpParams.Some? && pp.dhcpParams.value.enabled == Some(true) { data := data.(dhcpEnabled := Some(true)); }
        if Im.Truthy(p.description) { data := data.(description := p.description); }
        l3 := Some(data);
      }
      profiles := profiles + [VirtualLinkProfile(vlId, "", l3)];
    }
    TakeAll(ips);
    r := Ok(profiles);
  }

  /** The scaling group loop: one scaling aspect per group, in order. */
  method GetScalingAspects(groups: seq<Im.ScalingGroup>) returns (aspects: seq<ScalingAspect>)
    ensures aspects == Map(groups, ScalingAspectOf)
  {
    aspects := [];
    for i := 0 to |groups|
      invariant aspects == Map(groups[..i], ScalingAspectOf)
    {
      TakeSnoc(groups, i);
      MapSnoc(groups[..i], groups[i], ScalingAspectOf);
      var aspect := GetScalingAspect(groups[i]);
      aspects := aspects + [aspect];
    }
    TakeAll(groups);
  }
}
