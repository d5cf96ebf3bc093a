/** The VNFD translation as the engine performs it (osm_im/im_translation.py, lines 47-64 and
    104-550): an output mapping, one field per SOL006 key, that fourteen stages update in
    order. Each stage method is proved to leave exactly the mapping the matching function of
    module VnfdRules describes, so the whole run computes `VnfdRules.TranslateVnfd`. */
module VnfdBuilder {
  import opened Wrappers
  import opened Errors
  import opened Seqs
  import Im
  import opened Sol006
  import opened VnfdRules
  import opened VnfdHelpers

  /** The SOL006 VNFD mapping under construction. */
  class Builder {
    var id: Option<string>
    var productName: Option<string>
    var description: Option<string>
    var provider: Option<string>
    var version: Option<string>
    var mgmtCp: Option<string>
    var virtualStorageDesc: Option<seq<VirtualStorageDesc>>
    var virtualComputeDesc: Option<seq<VirtualComputeDesc>>
    var swImageDesc: Option<seq<SwImageDesc>>
    var vdu: Option<seq<Vdu>>
    var extCpd: Option<seq<ExtCpd>>
    var intVirtualLinkDesc: Option<seq<string>>
    var df: Option<seq<Df>>
    var vduConfiguration: Option<seq<Configuration>>
    var vnfConfiguration: Option<seq<Configuration>>
    var kdu: Option<Im.Subtree>
    var k8sCluster: Option<K8sCluster>
    var placementGroups: Option<Im.Subtree>

    /** The mapping as a value. */
    function Snapshot(): Vnfd
      reads this
    {
      Vnfd(id, productName, description, provider, version, mgmtCp, virtualStorageDesc,
           virtualComputeDesc, swImageDesc, vdu, extCpd, intVirtualLinkDesc, df,
           vduConfiguration, vnfConfiguration, kdu, k8sCluster, placementGroups)
    }

    /** The empty mapping `{}`. */
    constructor ()
      ensures Snapshot() == EmptyVnfd
    {
      id, productName, description, provider, version, mgmtCp := None, None, None, None, None, None;
      virtualStorageDesc, virtualComputeDesc, swImageDesc, vdu, extCpd := None, None, None, None, None;
      intVirtualLinkDesc, df, vduConfiguration, vnfConfiguration := None, None, None, None;
      kdu, k8sCluster, placementGroups := None, None, None;
    }

    // ------------------------------------------------------------ 1, 2

    method AddBasicData(v: Im.Vnfd)
      modifies this
      ensures Snapshot() == BasicData(v, old(Snapshot()))
    {
      id := Some(v.id);
      productName := CopyIfTruthy(v.name, productName);
      description := CopyIfTruthy(v.description, description);
      provider := CopyIfTruthy(v.vendor, provider);
      version := CopyIfTruthy(v.version, version);
    }

    method AddMgmtInterfaceCp(v: Im.Vnfd) returns (err: Option<TranslationError>)
      modifies this
      ensures MgmtCp(v, old(Snapshot())).Ok? ==> err.None? && Snapshot() == MgmtCp(v, old(Snapshot())).value
      ensures MgmtCp(v, old(Snapshot())).Err? ==> err == Some(MgmtCp(v, old(Snapshot())).error)
    {
      if v.mgmtInterface.None? {
        return Some(KeyError("mgmt-interface"));
      }
      if v.mgmtInterface.value.cp.None? {
        return Some(KeyError("cp"));
      }
      mgmtCp := Some(ExtCpdId(v.mgmtInterface.value.cp.value));
      err := None;
    }

    // ------------------------------------------------------------ 3: flavors

    method AddVduFlavors(v: Im.Vnfd)
      modifies this
      ensures Snapshot() == Flavors(v, old(Snapshot()))
    {
      var storage, compute := GetFlavorDescs(v.vdus);
      if |storage| > 0 { virtualStorageDesc := Some(storage); }
      if |compute| > 0 { virtualComputeDesc := Some(compute); }
    }

    // ------------------------------------------------------------ 4: guest EPA

    method AddVduGuestEpa(v: Im.Vnfd)
      modifies this
      ensures Snapshot() == GuestEpa(v, old(Snapshot()))
    {
      for i := 0 to |v.vdus|
        invariant Snapshot() == old(Snapshot()).(virtualComputeDesc := EpaCompute(v.vdus[..i], old(virtualComputeDesc)),
                                                   virtualStorageDesc := EpaStorage(v.vdus[..i], old(virtualStorageDesc)))
      {
        TakeSnoc(v.vdus, i);
        if v.vdus[i].guestEpa.None? {
          continue;
        }
        AddGuestEpaMemoryAndCpu(v.vdus[i]);
        AddGuestEpaDiskIo(v.vdus[i]);
      }
      TakeAll(v.vdus);
    }

    /** Merge the VDU's EPA memory and cpu options into its compute descriptor, or append one. */
    method AddGuestEpaMemoryAndCpu(d: Im.Vdu)
      requires d.guestEpa.Some?
      modifies this
      ensures Snapshot() == old(Snapshot()).(virtualComputeDesc := PatchCompute(old(virtualComputeDesc), d.id, d.guestEpa.value))
    {
      var epa := d.guestEpa.value;
      var memory := EpaVirtualMemory(epa);
      var cpu := EpaVirtualCpu(epa);
      var cdId := ComputeDescId(d.id);
      var descs := virtualComputeDesc.GetOr([]);
      var found := FindLastDesc(descs, ComputeId, cdId);
      var cd := if found.Some? then descs[found.value] else VirtualComputeDesc(cdId, None, None);
      var mergedMemory := UpdateMemory(cd.virtualMemory.GetOr(EmptyVirtualMemory), memory);
      var mergedCpu := UpdateCpu(cd.virtualCpu.GetOr(EmptyVirtualCpu), cpu);
      if mergedMemory != EmptyVirtualMemory { cd := cd.(virtualMemory := Some(mergedMemory)); }
      if mergedCpu != EmptyVirtualCpu { cd := cd.(virtualCpu := Some(mergedCpu)); }
      if found.Some? {
        virtualComputeDesc := Some(descs[found.value := cd]);
      } else if virtualComputeDesc.Some? && |virtualComputeDesc.value| > 0 {
        virtualComputeDesc := Some(virtualComputeDesc.value + [cd]);
      } else {
        assert descs + [cd] == [cd];
        virtualComputeDesc := Some([cd]);
      }
    }

    /** Set the VDU's EPA disk-io-quota on its storage descriptor, or append one. */
    method AddGuestEpaDiskIo(d: Im.Vdu)
      requires d.guestEpa.Some?
      modifies this
      ensures Snapshot() == old(Snapshot()).(virtualStorageDesc := PatchStorage(old(virtualStorageDesc), d.id, d.guestEpa.value))
    {
      var quota := d.guestEpa.value.diskIoQuota;
      if quota.None? {
        return;
      }
      var sdId := StorageDescId(d.id);
      var descs := virtualStorageDesc.GetOr([]);
      var found := FindLastDesc(descs, StorageId, sdId);
      var sd := if found.Some? then descs[found.value] else VirtualStorageDesc(sdId, None, None);
      sd := sd.(diskIoQuota := quota);
      if found.Some? {
        virtualStorageDesc := Some(descs[found.value := sd]);
      } else if virtualStorageDesc.Some? && |virtualStorageDesc.value| > 0 {
        virtualStorageDesc := Some(virtualStorageDesc.value + [sd]);
      } else {
        assert descs + [sd] == [sd];
        virtualStorageDesc := Some([sd]);
      }
    }

    // ------------------------------------------------------------ 5: images

    method AddVduImages(v: Im.Vnfd)
      modifies this
      ensures Snapshot() == Images(v, old(Snapshot()))
    {
      var descs := GetSwImageDescs(v.vdus);
      if |descs| > 0 { swImageDesc := Some(descs); }
    }

    // ------------------------------------------------------------ 6: VDUs

    method AddVdus(v: Im.Vnfd)
      modifies this
      ensures Snapshot() == Vdus(v, old(Snapshot()))
    {
      var vdus, exts, configurations, profiles, levels := GetVduEntries(v);
      if |vdus| > 0 {
        var flavour := Df(DefaultDfId, Some(profiles), Some([InstantiationLevel(DefaultInstantiationLevelId, levels)]), None, None, None);
        assert flavour == DefaultDf(v);
        vdu, df := Some(vdus), Some([flavour]);
      }
      extCpd := SetIfNonEmpty(extCpd, exts);
      vduConfiguration := SetIfNonEmpty(vduConfiguration, configurations);
    }

    // ------------------------------------------------------------ 7: internal VLDs

    method AddInternalVlds(v: Im.Vnfd) returns (err: Option<TranslationError>)
      modifies this
      ensures InternalVlds(v, old(Snapshot())).Ok? ==> err.None? && Snapshot() == InternalVlds(v, old(Snapshot())).value
      ensures InternalVlds(v, old(Snapshot())).Err? ==> err == Some(InternalVlds(v, old(Snapshot())).error)
    {
      var ids: seq<string> := [];
      var vlds := v.internalVlds;
      for i := 0 to |vlds|
        invariant LinkVlds(old(vdu), IntCpRefIndex(v.vdus), vlds[..i]) == Ok(vdu)
        invariant Snapshot() == old(Snapshot()).(vdu := vdu)
        invariant ids == Map(vlds[..i], InternalVldId)
      {
        TakeSnoc(vlds, i);
        TakeSnoc(vlds, i);
        MapSnoc(vlds[..i], vlds[i], InternalVldId);
        err := AddInternalVldConnectionPointRefs(vlds[i], v);
        if err.Some? {
          LinkVldsErrPrefix(old(vdu), IntCpRefIndex(v.vdus), vlds, i + 1);
          return;
        }
        ids := ids + [vlds[i].id];
      }
      TakeAll(vlds);
      if |ids| > 0 { intVirtualLinkDesc := Some(ids); }
      err := None;
    }

    /** Resolve each connection point reference of `ivld` and link the int-cpd it names. */
    method AddInternalVldConnectionPointRefs(ivld: Im.InternalVld, v: Im.Vnfd) returns (err: Option<TranslationError>)
      modifies this
      ensures LinkRefs(old(vdu), IntCpRefIndex(v.vdus), ivld.internalConnectionPoints, ivld.id).Ok? ==>
                err.None? &&
                Snapshot() == old(Snapshot()).(vdu := LinkRefs(old(vdu), IntCpRefIndex(v.vdus), ivld.internalConnectionPoints, ivld.id).value)
      ensures LinkRefs(old(vdu), IntCpRefIndex(v.vdus), ivld.internalConnectionPoints, ivld.id).Err? ==>
                err == Some(LinkRefs(old(vdu), IntCpRefIndex(v.vdus), ivld.internalConnectionPoints, ivld.id).error) &&
                Snapshot() == old(Snapshot()).(vdu := vdu)
    {
      var index := BuildIntCpRefIndex(v.vdus);
      var refs := ivld.internalConnectionPoints;
      for j := 0 to |refs|
        invariant LinkRefs(old(vdu), index, refs[..j], ivld.id) == Ok(vdu)
        invariant Snapshot() == old(Snapshot()).(vdu := vdu)
      {
        TakeSnoc(refs, j);
        var ref := refs[j];
        if ref !in index {
          LinkRefsErrPrefix(old(vdu), index, refs, ivld.id, j + 1);
          return Some(KeyError(ref));
        }
        var (vduId, interfaceName) := index[ref];
        LinkIntCpdToVld(vduId, IntCpdId(interfaceName), ivld.id);
      }
      TakeAll(refs);
      err := None;
    }

    /** Link int-cpd `cpdId` of every VDU `vduId` to the internal VLD `vldId`. */
    method LinkIntCpdToVld(vduId: string, cpdId: string, vldId: string)
      modifies this
      ensures Snapshot() == old(Snapshot()).(vdu := LinkVduList(old(vdu), vduId, cpdId, vldId))
    {
      if vdu.None? {
        return;
      }
      var vs := vdu.value;
      ghost var linked := LinkVdus(vdu.value, vduId, cpdId, vldId);
      for i := 0 to |vs|
        modifies {}
        invariant |vs| == |linked|
        invariant forall k :: 0 <= k < i ==> vs[k] == linked[k]
        invariant forall k :: i <= k < |vs| ==> vs[k] == vdu.value[k]
      {
        if vs[i].id != vduId {
          continue;
        }
        var cpds := vs[i].intCpd;
        for j := 0 to |cpds|
          invariant |cpds| == |vs[i].intCpd|
          invariant forall k :: 0 <= k < j ==> cpds[k] == LinkIntCpd(vs[i].intCpd[k], cpdId, vldId)
          invariant forall k :: j <= k < |cpds| ==> cpds[k] == vs[i].intCpd[k]
        {
          if cpds[j].id == cpdId {
            cpds := cpds[j := cpds[j].(intVirtualLinkDesc := Some(vldId))];
          }
        }
        vs := vs[i := vs[i].(intCpd := cpds)];
      }
      assert vs == linked;
      vdu := Some(vs);
    }

    // ------------------------------------------------------------ 8: VNF configuration

    method AddVnfConfiguration(v: Im.Vnfd) returns (err: Option<TranslationError>)
      modifies this
      ensures VnfConfiguration(v, old(Snapshot())).Ok? ==> err.None? && Snapshot() == VnfConfiguration(v, old(Snapshot())).value
      ensures VnfConfiguration(v, old(Snapshot())).Err? ==> err == Some(VnfConfiguration(v, old(Snapshot())).error)
    {
      if v.vnfConfiguration.None? {
        return None;
      }
      vnfConfiguration := Some([Configuration(DefaultVnfConfigurationId, v.vnfConfiguration.value)]);
      if df.None? {
        return Some(KeyError("df"));
      }
      if |df.value| == 0 {
        return Some(IndexError);
      }
      df := Some(df.value[0 := df.value[0].(vnfConfigurationId := Some(DefaultVnfConfigurationId))]);
      err := None;
    }

    // ------------------------------------------------------------ 9: IP profiles

    method AddIpProfiles(v: Im.Vnfd) returns (err: Option<TranslationError>)
      modifies this
      ensures IpProfiles(v, old(Snapshot())).Ok? ==> err.None? && Snapshot() == IpProfiles(v, old(Snapshot())).value
      ensures IpProfiles(v, old(Snapshot())).Err? ==> err == Some(IpProfiles(v, old(Snapshot())).error)
    {
      var index := BuildIpProfileRefIndex(v.internalVlds);
      var built := GetVirtualLinkProfiles(v.ipProfiles, index);
      if built.Err? {
        return Some(built.error);
      }
      var profiles := built.value;
      if |profiles| > 0 {
        if df.None? {
          return Some(KeyError("df"));
        }
        if |df.value| == 0 {
          return Some(IndexError);
        }
        df := Some(df.value[0 := df.value[0].(virtualLinkProfile := Some(profiles))]);
      }
      err := None;
    }

    // ------------------------------------------------------------ 10: monitoring parameters

    method AddVduMonitoringParams(v: Im.Vnfd)
      modifies this
      ensures Snapshot() == MonitoringParams(v, old(Snapshot()))
    {
      var metrics := BuildMetricIndex(v.vdus);
      var mps := v.monitoringParams;
      for i := 0 to |mps|
        invariant Snapshot() == old(Snapshot()).(vdu := AttachMonitoringParams(old(vdu), mps[..i], metrics))
      {
        TakeSnoc(mps, i);
        var mp := mps[i];
        var parameter := MonitoringParameter(mp.id, None, None);
        if Im.Truthy(mp.name) {
          parameter := parameter.(name := mp.name);
        }
        if mp.vduMonitoringParam.Some? {
          var r := mp.vduMonitoringParam.value;
          var metric := PerformanceMetric(r, metrics);
          if metric.Some? {
            parameter := parameter.(performanceMetric := metric);
          }
          AttachMonitoringParameter(r.vduRef, parameter);
        }
      }
      TakeAll(mps);
    }

    /** Append `mp` to the monitoring-parameter list of every VDU whose id is `vduRef`. */
    method AttachMonitoringParameter(vduRef: Option<string>, mp: MonitoringParameter)
      modifies this
      ensures Snapshot() == old(Snapshot()).(vdu := if old(vdu).Some? then Some(AttachMonitoring(old(vdu).value, vduRef, mp)) else None)
    {
      if vdu.None? {
        return;
      }
      var vs := vdu.value;
      for i := 0 to |vs|
        modifies {}
        invariant |vs| == |vdu.value|
        invariant forall k :: 0 <= k < i ==> vs[k] == AttachMonitoring(vdu.value, vduRef, mp)[k]
        invariant forall k :: i <= k < |vs| ==> vs[k] == vdu.value[k]
      {
        if Some(vs[i].id) != vduRef {
          continue;
        }
        if vs[i].monitoringParameter.Some? && |vs[i].monitoringParameter.value| > 0 {
          vs := vs[i := vs[i].(monitoringParameter := Some(vs[i].monitoringParameter.value + [mp]))];
        } else {
          assert vs[i].monitoringParameter.GetOr([]) + [mp] == [mp];
          vs := vs[i := vs[i].(monitoringParameter := Some([mp]))];
        }
      }
      assert vs == AttachMonitoring(vdu.value, vduRef, mp);
      vdu := Some(vs);
    }

    // ------------------------------------------------------------ 11: scaling groups

    method AddScalingGroupDescriptors(v: Im.Vnfd) returns (err: Option<TranslationError>)
      modifies this
      ensures ScalingGroups(v, old(Snapshot())).Ok? ==> err.None? && Snapshot() == ScalingGroups(v, old(Snapshot())).value
      ensures ScalingGroups(v, old(Snapshot())).Err? ==> err == Some(ScalingGroups(v, old(Snapshot())).error)
    {
      var aspects := GetScalingAspects(v.scalingGroups);
      if |aspects| > 0 {
        if df.None? {
          return Some(KeyError("df"));
        }
        if |df.value| == 0 {
          return Some(IndexError);
        }
        df := Some(df.value[0 := df.value[0].(scalingAspect := Some(aspects))]);
      }
      err := None;
    }

    // ------------------------------------------------------------ 12-14

    method AddKdus(v: Im.Vnfd)
      modifies this
      ensures Snapshot() == Kdus(v, old(Snapshot()))
    {
      if v.kdu.Some? {
        kdu := v.kdu;
        if df.None? || |df.value| == 0 {
          df := Some([MinimalDf]);
        }
      }
    }

    method AddK8sClusters(v: Im.Vnfd)
      modifies this
      ensures Snapshot() == K8sClusters(v, old(Snapshot()))
    {
      if v.k8sCluster.None? {
        return;
      }
      var c := v.k8sCluster.value;
      var cluster := K8sCluster(None, None, None);
      if Im.Truthy(c.version) { cluster := cluster.(version := c.version); }
      if |c.cni| > 0 { cluster := cluster.(cni := Some(c.cni)); }
      var nets, exts := GetK8sNetEntries(c.nets);
      if |nets| > 0 { cluster := cluster.(nets := Some(nets)); }
      k8sCluster := Some(cluster);
      if |exts| > 0 {
        if extCpd.None? || |extCpd.value| == 0 {
          extCpd := Some([]);
        }
        extCpd := Some(extCpd.value + exts);
      }
    }

    method AddPlacementGroups(v: Im.Vnfd)
      modifies this
      ensures Snapshot() == PlacementGroups(v, old(Snapshot()))
    {
      if v.placementGroups.Some? {
        placementGroups := v.placementGroups;
      }
    }
  }

  /** The fourteen stages on a fresh mapping; the first stage that raises ends the run. */
  method BuildSol006Vnfd(v: Im.Vnfd) returns (r: Result<Vnfd, TranslationError>)
    ensures r == TranslateVnfd(v)
  {
    var b := new Builder();
    b.AddBasicData(v);
    var err := b.AddMgmtInterfaceCp(v);
    if err.Some? { return Err(err.value); }
    b.AddVduFlavors(v);
    b.AddVduGuestEpa(v);
    b.AddVduImages(v);
    b.AddVdus(v);
    err := b.AddInternalVlds(v);
    if err.Some? { return Err(err.value); }
    err := b.AddVnfConfiguration(v);
    if err.Some? { return Err(err.value); }
    err := b.AddIpProfiles(v);
    if err.Some? { return Err(err.value); }
    b.AddVduMonitoringParams(v);
    err := b.AddScalingGroupDescriptors(v);
    if err.Some? { return Err(err.value); }
    b.AddKdus(v);
    b.AddK8sClusters(v);
    b.AddPlacementGroups(v);
    r := Ok(b.Snapshot());
  }
}
