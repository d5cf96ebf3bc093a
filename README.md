# IM → SOL006 descriptor translation, modelled in Dafny

This project models the translation engine of `osm_im/im_translation.py`. The engine takes an
OSM information-model (IM) descriptor and rebuilds it as an ETSI NFV SOL006 descriptor.

- **Dispatcher.** The engine finds the descriptor type from the document's top-level key by a
  substring test. "vnfd" is tested before "nsd". Any other key raises `TranslationException`.
  The engine then validates the input and removes the `{catalog: {vnfd|nsd: [ ... ]}}` envelope.
- **VNFD translation.** Fourteen stages run in order on one output mapping:
  - basic data, management cp, flavors, guest EPA, images and VDUs;
  - internal VLDs, vnf-configuration, ip-profiles and monitoring parameters;
  - scaling groups, KDUs, the K8s cluster and placement groups.

  Later stages find and patch what earlier stages built:
  - guest EPA merges into the compute and storage descriptors the flavor stage made;
  - internal VLDs set `int-virtual-link-desc` on the VDUs' `int-cpd`s;
  - monitoring parameters are appended to VDU entries;
  - ip-profiles and scaling groups write into `df[0]`.
- **NSD translation.** Three stages: basic data, the distinct constituent `vnfd-id`s, and the
  VLD stage. The VLD stage is a fold in four steps:
  1. flatten each VLD with its connection point references;
  2. group the rows by `member-vnf-index-ref`;
  3. build one `vnf-profile` per group;
  4. merge that profile's virtual-link connectivities by `virtual-link-profile-id`.

## Layout

| module | file | what it holds |
|---|---|---|
| `Wrappers`, `Errors` | `wrappers.dfy` | `Option`, `Result`, and the engine's three failure kinds (`TranslationException`, `KeyError`, `IndexError`) |
| `Seqs`, `Strings` | `seqs.dfy`, `strings.dfy` | sequence folds (`Map`, `Collect`, first occurrences by key), substring test, integer rendering |
| `Im` | `im.dfy` | the IM input records, with `Option` for optional keys and the engine's truthiness tests written out |
| `Sol006` | `sol006.dfy` | the SOL006 output records. An absent key is `None`, never an empty list; the one key written as null, a vnf-profile's `vnfd-id`, is `None` too |
| `VnfdRules` | `vnfd_rules.dfy` | what each VNFD stage writes, as a pure function of the input and the previous output |
| `VnfdHelpers` | `vnfd_helpers.dfy` | the loops of the VNFD stages, as methods proved against `VnfdRules` |
| `VnfdBuilder` | `vnfd_builder.dfy` | class `Builder`: one field per output key, one method per stage, each proved to produce the `VnfdRules` state |
| `VnfdProperties` | `vnfd_properties.dfy` | what the rules promise: id conventions, find-or-append, dedup, joins, error cases |
| `NsdRules`, `NsdBuilder`, `NsdProperties` | `nsd_*.dfy` | the same three layers for the NSD |
| `Translation` | `translation.dfy` | dispatcher, validation, envelopes and the public entry points |

Conventions the model follows:

- vdu-profile min/max are assigned, not summed: the last scaling group that references the
  VDU wins (lines 361-367).
- A compute descriptor is created for any VDU with a non-empty `guest-epa`, even when no memory
  or cpu field is set. It then carries only its id (lines 161-182).
- `int-cpd` is always present on a VDU entry, possibly empty (line 282).
- Sometimes a connection point reference has no `vnfd-connection-point-ref` of its own. The
  NSD then formats the VLD's whole reference list into the cpd id: the flattened row inherits
  the VLD's key (lines 584, 603). The model takes Python's `str()` of that list as the
  parameter `render`.
- `vnfd-id` is built from a Python set (lines 573-579). The model lists the ids in order of
  first appearance. Its contract claims only that no id repeats and that the ids are exactly the
  truthy `vnfd-id-ref`s.

## Model

| member | source | states |
|---|---|---|
| Translation.DescriptorKindOf | osm_im/im_translation.py:86-94 | vnfd iff the root key contains "vnfd"; nsd iff it contains "nsd" but not "vnfd"; otherwise the TranslationException naming the key |
| Strings.ContainsIffOccurs | osm_im/im_translation.py:88-90 | Python's substring test holds iff the pattern occurs at some index |
| Translation.KnownRootKeys | osm_im/im_translation.py:92-94 | the four root keys listed in the error message resolve to their descriptor types |
| Translation.ValidateImModel | osm_im/im_translation.py:78-83 | an unknown root key fails before validation; a rejecting validator becomes a TranslationException carrying its message; an accepting one yields the type |
| Translation.RemoveImVnfdEnvelope | osm_im/im_translation.py:99-101 | the first VNFD of the catalog; KeyError("vnfd") when the list is missing, IndexError when it is empty |
| Translation.RemoveImNsdEnvelope | osm_im/im_translation.py:555-557 | the first NSD of the catalog; KeyError("nsd") when missing, IndexError when empty |
| Translation.TranslateImModelToSol006 | osm_im/im_translation.py:34-44 | the method computes the validate-then-dispatch result |
| Translation.TranslateImVnfdToSol006 | osm_im/im_translation.py:47-64 | the method computes envelope removal followed by the VNFD stages |
| Translation.TranslateImNsdToSol006 | osm_im/im_translation.py:67-73 | the method computes envelope removal followed by the NSD stages, wrapped as a one-element nsd list |
| Translation.UnknownKindFirst | osm_im/im_translation.py:34-36 | an unknown root key yields the kind error, whatever the validator says |
| Translation.RejectedNotTranslated | osm_im/im_translation.py:78-83 | a rejected document produces no output, only the validation error |
| Translation.DispatchByKind | osm_im/im_translation.py:34-40 | an accepted vnfd document goes to the VNFD translation, an accepted nsd document to the NSD one |
| Translation.EnvelopeErrors | osm_im/im_translation.py:47-73 | the NSD translation fails iff its envelope is malformed; the VNFD translation fails with the envelope's error, or else yields the stages' result |
| VnfdBuilder.Builder.constructor | osm_im/im_translation.py:49 | the output mapping starts empty |
| VnfdBuilder.BuildSol006Vnfd | osm_im/im_translation.py:47-64 | the fourteen stages in order compute the VNFD rules, stopping at the first error |
| VnfdBuilder.Builder.AddBasicData | osm_im/im_translation.py:104-113 | the new state sets the id and copies name, description, vendor and version (as product-name, description, provider, version) only when truthy |
| VnfdBuilder.Builder.AddMgmtInterfaceCp | osm_im/im_translation.py:116-117 | mgmt-cp is set to "<cp>-ext" as the management cp rule says; without mgmt-interface the result is KeyError("mgmt-interface"), and with a mgmt-interface lacking cp (the empty mapping included) KeyError("cp") |
| VnfdProperties.TranslateVnfdNeedsMgmt | osm_im/im_translation.py:116-117 | a VNFD without mgmt-interface fails with KeyError("mgmt-interface"); one whose mgmt-interface lacks cp, `{}` included, fails with KeyError("cp") |
| VnfdProperties.MgmtCpSpec | osm_im/im_translation.py:116-117 | mgmt-cp is "<mgmt-interface.cp>-ext"; a missing mgmt-interface is KeyError("mgmt-interface"), a mgmt-interface without cp (`{}` included) KeyError("cp") |
| VnfdBuilder.Builder.AddVduFlavors | osm_im/im_translation.py:120-142 | the new state holds the storage and compute descriptors the flavor rule derives, each list omitted when empty |
| VnfdHelpers.GetFlavorDescs | osm_im/im_translation.py:121-138 | the loop collects one storage and one compute descriptor per VDU whose flavor selects them, in VDU order |
| VnfdProperties.FlavorStorageMember | osm_im/im_translation.py:128-132 | a storage descriptor is emitted iff some VDU's storage-gb is truthy, with id "<vdu-id>-storage" and size-of-storage = storage-gb |
| VnfdProperties.FlavorComputeMember | osm_im/im_translation.py:129-138 | a compute descriptor is emitted iff some VDU's vcpu-count or memory-mb is truthy, with id "<vdu-id>-compute", num-virtual-cpu = vcpu-count iff truthy, size = memory-mb / 1024 iff truthy |
| VnfdProperties.FlavorRefsFollowDescs | osm_im/im_translation.py:315-321 | a VDU references "<id>-compute" / ["<id>-storage"] exactly when the flavor stage emits that descriptor |
| VnfdProperties.FlavorRefsResolve | osm_im/im_translation.py:315-321 | every flavor reference on a VDU names a descriptor in the VNFD-level list |
| VnfdBuilder.Builder.AddVduGuestEpa | osm_im/im_translation.py:145-152 | the new state is the guest-EPA rule: every VDU with guest-epa patched into compute and storage descriptors in VDU order |
| VnfdProperties.EpaComputeKeys | osm_im/im_translation.py:145-182 | after the EPA stage the compute ids are the earlier ones plus "<id>-compute" of each VDU with guest-epa; distinct ids stay distinct |
| VnfdProperties.EpaStorageKeys | osm_im/im_translation.py:145-205 | after the EPA stage the storage ids are the earlier ones plus "<id>-storage" of each VDU with a disk-io-quota; distinct ids stay distinct |
| VnfdBuilder.Builder.AddGuestEpaMemoryAndCpu | osm_im/im_translation.py:155-182 | only the compute descriptor list changes, to the find-or-append patch |
| VnfdHelpers.FindLastDesc | osm_im/im_translation.py:164-167 | the search loop finds the last descriptor with the derived id (later matches overwrite earlier ones); the storage search at lines 195-198 is the same loop |
| Seqs.LastIndex | osm_im/im_translation.py:164-167 | the index found carries the id and no later entry does; none found means no entry carries it |
| VnfdProperties.PatchComputeFindOrAppend | osm_im/im_translation.py:161-182 | when "<id>-compute" exists, the last match is merged in place and nothing is added; otherwise exactly one descriptor is appended, even one holding only the id |
| VnfdProperties.PatchComputeKeys | osm_im/im_translation.py:161-182 | the patch adds exactly the derived id to the id set and keeps ids distinct |
| VnfdProperties.MergeEpaComputeKeys | osm_im/im_translation.py:169-176 | the merge keeps the id, the vcpu count and the memory size, lets the EPA pinning override, and sets numa-enabled with the numa policy |
| VnfdProperties.EpaMemoryKeys | osm_im/im_translation.py:208-217 | numa-enabled is true iff numa-node-policy is present, which is then copied; mempage-size only when truthy; no size |
| VnfdProperties.EpaPinning | osm_im/im_translation.py:220-233 | pinning appears iff a pinning or thread-pinning policy is set; "SHARED" maps to dynamic, any other truthy value to static; thread policy copied when truthy; cpu-quota copied |
| VnfdBuilder.Builder.AddGuestEpaDiskIo | osm_im/im_translation.py:185-205 | only the storage descriptor list changes, to the disk-io find-or-append patch |
| VnfdProperties.PatchStorageFindOrAppend | osm_im/im_translation.py:185-205 | without disk-io-quota nothing changes; otherwise the last match gets the quota in place, or exactly one descriptor with the quota is appended |
| VnfdProperties.PatchStorageKeys | osm_im/im_translation.py:192-205 | with a quota the patch adds exactly the derived id; distinct ids stay distinct |
| VnfdBuilder.Builder.AddVduImages | osm_im/im_translation.py:236-254 | the new state holds the deduplicated image list, omitted when empty |
| VnfdHelpers.GetSwImageDescs | osm_im/im_translation.py:237-251 | the loop over VDUs with its seen-set computes the first-occurrence image list |
| VnfdHelpers.AddVduImageDescs | osm_im/im_translation.py:240-251 | one VDU's primary image, then its alternatives, extend the first-occurrence list; the seen-set stays the set of its ids |
| VnfdHelpers.AddAlternativeImageDescs | osm_im/im_translation.py:244-251 | the inner loop over alternatives keeps first occurrences and the seen-set in step |
| VnfdHelpers.KeepFirstImage | osm_im/im_translation.py:249-251 | one candidate is appended iff its image is not yet seen |
| VnfdProperties.ImageCandidatesShape | osm_im/im_translation.py:242-246 | every candidate descriptor has id = name = image |
| VnfdProperties.VduCandidateIds | osm_im/im_translation.py:240-246 | one VDU's candidate ids are its truthy primary image and its alternatives' images |
| VnfdProperties.ImageCandidateIds | osm_im/im_translation.py:239-246 | the candidate ids across VDUs are exactly the images some VDU names |
| VnfdProperties.SwImageDescsSpec | osm_im/im_translation.py:236-254 | the image ids are pairwise distinct, are exactly the images the VDUs name, have id = name = image, and each entry (vim-type included) is the first candidate with its id, in first-occurrence order |
| VnfdHelpers.GetVduImages | osm_im/im_translation.py:305-312 | the loop computes the VDU's own sw-image-desc and alternative list |
| VnfdProperties.VduAlternativesKept | osm_im/im_translation.py:305-312 | a VDU's alternative-sw-image-desc lists every alternative image in order, without dedup, and is absent when there are none |
| VnfdBuilder.Builder.AddVdus | osm_im/im_translation.py:257-302 | the new state is the VDU rule: VDU entries, default df, ext-cpds and vdu-configurations, each omitted when empty |
| VnfdHelpers.GetVduEntries | osm_im/im_translation.py:263-294 | the VDU loop computes the descriptors, ext-cpds, configurations, profiles and levels of all VDUs in order |
| VnfdHelpers.GetVduDescriptor | osm_im/im_translation.py:264-283 | the method computes one VDU's entry and its ext-cpds |
| VnfdProperties.DefaultDfSpec | osm_im/im_translation.py:257-298 | no VDU leaves the output unchanged; otherwise one VDU entry per VDU with its id, exactly one df "default-df" with one vdu-profile per VDU and exactly one instantiation level "default-instantiation-level" with one vdu-level (count, default 1) per VDU, in order |
| VnfdHelpers.GetIntAndExtCpds | osm_im/im_translation.py:324-354 | the interface loop computes one int-cpd per interface and the ext-cpds of the external ones |
| VnfdProperties.IntCpdsPerInterface | osm_im/im_translation.py:327-334 | one int-cpd per interface, id "<name>-int", requirement (name, virtual-interface, position as present), no VLD link yet |
| VnfdProperties.ExtCpdsOfMember | osm_im/im_translation.py:335-350 | an ext-cpd is emitted iff an interface has a truthy external ref, with id "<ref>-ext" linking (vdu-id, "<name>-int") and the port-security fields looked up by the ref |
| VnfdProperties.PortSecurityEnabledSpec | osm_im/im_translation.py:343-347 | port-security-enabled comes from the last connection point named by the ref that has the key, and is absent when none has it |
| VnfdProperties.PortSecurityDisableStrategySpec | osm_im/im_translation.py:343-349 | port-security-disable-strategy comes from the last named connection point with a truthy value, and is absent when none has one |
| VnfdHelpers.GetVduProfile | osm_im/im_translation.py:357-370 | the nested scaling-group loop computes the vdu-profile rule |
| VnfdProperties.VduProfilesAt | osm_im/im_translation.py:285-291 | the df holds one vdu-profile per VDU, each that VDU's profile |
| VnfdProperties.VduProfileFromLastGroup | osm_im/im_translation.py:357-367 | with k the last group referencing the VDU: min = count + group min (default 0), max = count + group max (default 1); assigned, not summed |
| VnfdProperties.VduProfileWithoutGroup | osm_im/im_translation.py:357-370 | with no referencing group: min = count (default 1), no max; the configuration id is set iff the VDU has a vdu-configuration |
| VnfdProperties.VduConfigurationsSpec | osm_im/im_translation.py:287-290 | the VNFD-level vdu-configuration list holds exactly, for each VDU with a vdu-configuration, that block with id "<vdu-id>-vdu-configuration" |
| VnfdProperties.VduConfigurationJoin | osm_im/im_translation.py:368-369 | a vdu-profile's vdu-configuration-id is "<vdu-id>-vdu-configuration" iff the VDU has a vdu-configuration, and it names the entry that VDU contributes to the VNFD-level list |
| VnfdBuilder.Builder.AddInternalVlds | osm_im/im_translation.py:379-388 | the new state is the internal-VLD rule, or its KeyError is returned |
| VnfdProperties.LinkVldsErrSpec | osm_im/im_translation.py:381-402 | the stage fails iff some internal connection point's id-ref is declared by no interface |
| VnfdProperties.LinkVdusPreserve | osm_im/im_translation.py:379-410 | linking all VLDs keeps the VDU list, its length and every VDU id |
| VnfdBuilder.Builder.AddInternalVldConnectionPointRefs | osm_im/im_translation.py:391-410 | the VDU list becomes the linked one, or the KeyError is returned |
| VnfdHelpers.BuildIntCpRefIndex | osm_im/im_translation.py:392-398 | the loop builds the internal-connection-point-ref → (vdu-id, interface) index |
| VnfdProperties.IndexInterfacesDomain | osm_im/im_translation.py:394-398 | indexing one VDU's interfaces adds exactly the refs they declare |
| VnfdProperties.IndexInterfacesValue | osm_im/im_translation.py:394-398 | an indexed ref maps to the last interface declaring it, or keeps its earlier value when none does |
| VnfdProperties.IntCpRefIndexSpec | osm_im/im_translation.py:392-398 | a ref is indexed iff some interface declares it, and then maps to (vdu-id, interface name) of a declaring interface |
| VnfdProperties.LinkRefsErrSpec | osm_im/im_translation.py:400-402 | one VLD fails iff one of its id-refs is not indexed, with KeyError naming the first such ref |
| VnfdProperties.LinkRefsPreserve | osm_im/im_translation.py:400-410 | linking one VLD keeps the VDU list, its length and every VDU id |
| VnfdBuilder.Builder.LinkIntCpdToVld | osm_im/im_translation.py:405-410 | only the VDU list changes, to the linked one |
| VnfdRules.LinkVdus | osm_im/im_translation.py:405-410 | linking keeps the number of VDUs |
| VnfdProperties.LinkVdusSpec | osm_im/im_translation.py:405-410 | on the owning VDU exactly the int-cpds "<iface>-int" get int-virtual-link-desc = the VLD id; no other field or entry changes |
| VnfdProperties.LastLinkingVld | osm_im/im_translation.py:381-383 | the VLD an int-cpd ends linked to: None iff no VLD has an id-ref reaching it, else the id of a VLD reaching it after which none does |
| VnfdProperties.LinkRefsLinks | osm_im/im_translation.py:399-410 | resolving one VLD's id-refs links to it exactly the int-cpds some id-ref reaches, keeps the others, and changes no other field, VDU or entry |
| VnfdProperties.LinkVldsLinks | osm_im/im_translation.py:381-383 | after all VLDs, each int-cpd is linked to the last VLD reaching it, or unchanged when none does; nothing else changes |
| VnfdProperties.InternalVldsLinks | osm_im/im_translation.py:379-410 | the internal-VLD stage: the VDU list keeps its presence, each int-cpd ends linked to the last VLD reaching it, and int-virtual-link-desc lists the VLD ids when there are any |
| VnfdBuilder.Builder.AddVnfConfiguration | osm_im/im_translation.py:413-419 | the new state is the vnf-configuration rule, or its KeyError or IndexError is returned |
| VnfdProperties.VnfConfigurationNeedsVdus | osm_im/im_translation.py:413-419 | a VNFD with a mgmt cp and a vnf-configuration, but no VDU and no internal-VLD id-ref, has no df, so translation fails with KeyError("df") |
| VnfdProperties.VnfConfigurationSpec | osm_im/im_translation.py:413-419 | no vnf-configuration changes nothing; otherwise KeyError("df") without a df, IndexError with an empty one, else df[0] gets vnf-configuration-id "default-vnf-configuration" and the block becomes the one vnf-configuration entry with that id; nothing else changes |
| VnfdBuilder.Builder.AddIpProfiles | osm_im/im_translation.py:422-452 | the new state writes the virtual-link profiles into df[0], or the error is returned |
| VnfdHelpers.BuildIpProfileRefIndex | osm_im/im_translation.py:423-426 | the loop builds the ip-profile-ref → vld id index |
| VnfdProperties.IpProfileRefIndexSpec | osm_im/im_translation.py:423-426 | a name is indexed iff some VLD has it as truthy ip-profile-ref, and then maps to the last such VLD's id |
| VnfdHelpers.GetVirtualLinkProfiles | osm_im/im_translation.py:428-449 | the loop computes the profile list or the KeyError of the first unreferenced ip-profile |
| VnfdProperties.VirtualLinkProfilesSpec | osm_im/im_translation.py:428-449 | the stage fails iff some ip-profile's name is not indexed, with KeyError naming the first; otherwise one profile per ip-profile, in order, keyed by the VLD the index gives |
| VnfdProperties.IpProfilesSpec | osm_im/im_translation.py:421-452 | no ip-profiles changes nothing; an unreferenced name raises KeyError naming the first such profile; otherwise KeyError("df") or IndexError without a df[0], else only df[0].virtual-link-profile changes, to one profile per ip-profile in order, keyed by its VLD |
| VnfdProperties.VirtualLinkProfileShape | osm_im/im_translation.py:430-447 | id = the VLD id, flavour ""; l3-protocol-data iff params exist, named "<id>-l3-protocol-data", cidr and gateway copied when truthy, dhcp-enabled iff dhcp enabled is true |
| VnfdBuilder.Builder.AddVduMonitoringParams | osm_im/im_translation.py:455-480 | the new state is the monitoring rule applied to the VDU list |
| VnfdHelpers.BuildMetricIndex | osm_im/im_translation.py:456-461 | the loop builds the (vdu-id, param-id) → nfvi-metric index |
| VnfdProperties.IndexMetricsSpec | osm_im/im_translation.py:457-461 | one VDU adds exactly its params with a truthy metric, keyed by its id |
| VnfdProperties.MetricIndexSpec | osm_im/im_translation.py:456-461 | a key is indexed iff some VDU declares that param with a truthy metric, and then maps to a declared metric |
| VnfdProperties.AttachMonitoringParamsKeepsVdus | osm_im/im_translation.py:463-480 | the monitoring stage keeps the VDU list, its length and every VDU id |
| VnfdBuilder.Builder.AttachMonitoringParameter | osm_im/im_translation.py:474-480 | only the VDU list changes, with the parameter attached |
| VnfdRules.AttachMonitoring | osm_im/im_translation.py:474-480 | attaching keeps the number of VDUs |
| VnfdProperties.AttachMonitoringSpec | osm_im/im_translation.py:474-480 | only VDUs whose id equals the vdu-ref change, and only by appending the parameter to their monitoring-parameter list |
| VnfdProperties.AttachMonitoringParamsPerVdu | osm_im/im_translation.py:463-480 | each VDU's monitoring-parameter list is its own followed, in order, by the parameters whose vdu-ref is its id; the key stays absent when none is; nothing else changes |
| VnfdProperties.MonitoringParamsPerVdu | osm_im/im_translation.py:455-480 | the monitoring stage changes only the VDU list, keeps its presence and length, and gives each VDU the parameters whose vdu-ref is its id, in order, after its own |
| VnfdBuilder.Builder.AddScalingGroupDescriptors | osm_im/im_translation.py:483-510 | the new state writes the scaling aspects into df[0], or the error is returned |
| VnfdHelpers.GetScalingAspects | osm_im/im_translation.py:484-507 | the loop computes one scaling aspect per scaling group, in order |
| VnfdHelpers.GetScalingAspect | osm_im/im_translation.py:486-505 | the method computes one group's aspect with its vdu-delta loop |
| VnfdProperties.ScalingAspectShape | osm_im/im_translation.py:486-505 | id = name = the group name, max-scale-level when the max is non-zero, exactly one delta "<name>-delta" with one vdu-delta per group VDU, absent when there are none |
| VnfdProperties.ScalingGroupsSpec | osm_im/im_translation.py:483-510 | no groups leaves the output unchanged; missing df is KeyError("df"), an empty df list is IndexError; otherwise only df[0] changes, to hold the aspects |
| VnfdBuilder.Builder.AddKdus | osm_im/im_translation.py:513-517 | the new state is the KDU rule |
| VnfdProperties.KdusSpec | osm_im/im_translation.py:513-517 | KDUs are copied when present; an existing non-empty df is kept, otherwise it becomes [default-df] |
| VnfdBuilder.Builder.AddK8sClusters | osm_im/im_translation.py:520-545 | the new state is the K8s cluster rule |
| VnfdHelpers.GetK8sNetEntries | osm_im/im_translation.py:531-537 | the loop computes the net ids and the ext-cpds of nets with an external ref |
| VnfdProperties.K8sClustersSpec | osm_im/im_translation.py:520-545 | without a cluster nothing changes; otherwise the ext-cpd list is extended by the nets' ext-cpds and the cluster lists the net ids, omitted when empty |
| VnfdBuilder.Builder.AddPlacementGroups | osm_im/im_translation.py:548-550 | the new state is the placement-group rule |
| VnfdProperties.EarlyStagesCarryIds | osm_im/im_translation.py:48-55 | after the stages up to VDUs, the output carries the VNFD id, mgmt-cp and, with VDUs, one df and one entry per VDU with its id |
| VnfdProperties.InternalVldsCarryIds | osm_im/im_translation.py:379-410 | the internal-VLD stage keeps those identities |
| VnfdProperties.DfStagesCarryIds | osm_im/im_translation.py:413-510 | the vnf-configuration, ip-profile and scaling stages keep them |
| VnfdProperties.LateStagesCarryIds | osm_im/im_translation.py:455-550 | the monitoring, KDU, K8s and placement stages keep them |
| VnfdProperties.TranslateVnfdSpec | osm_im/im_translation.py:47-64 | a successful VNFD translation carries the VNFD id, mgmt-cp "<cp>-ext" and, with VDUs, exactly one df "default-df" and one entry per VDU, ids in VDU order |
| NsdBuilder.Builder.constructor | osm_im/im_translation.py:69 | the NSD mapping starts empty |
| NsdBuilder.BuildSol006Nsd | osm_im/im_translation.py:67-73 | the three stages in order compute the NSD rules |
| NsdBuilder.Builder.AddBasicData | osm_im/im_translation.py:560-569 | the new state sets the id and copies name, description, vendor (as designer) and version only when truthy |
| NsdBuilder.Builder.AddConstituentVnfds | osm_im/im_translation.py:572-579 | the new state sets vnfd-id to the distinct ids, omitted when there are none |
| NsdBuilder.CollectConstituentVnfdIds | osm_im/im_translation.py:573-576 | the loop with its seen-set computes the distinct truthy vnfd-id-refs |
| NsdProperties.ConstituentVnfdIdsSpec | osm_im/im_translation.py:572-579 | vnfd-id has no duplicates and holds exactly the truthy vnfd-id-refs |
| NsdBuilder.Builder.AddVlds | osm_im/im_translation.py:582-634 | the new state is the VLD rule: one df and the virtual-link-descs |
| NsdRules.VldRows | osm_im/im_translation.py:584 | a VLD yields one row per connection point reference |
| NsdProperties.VldRowsMember | osm_im/im_translation.py:584 | a row comes from a VLD iff it merges that VLD with one of its references |
| NsdProperties.RowOfMerge | osm_im/im_translation.py:584 | a flattened row takes id, member-vnf-index-ref, vnfd-id-ref and ip-address from the reference when it has them and from the VLD otherwise; without its own vnfd-connection-point-ref it gets the VLD's rendered list |
| NsdProperties.FlattenVldsMember | osm_im/im_translation.py:584 | a row is in the flattened list iff it merges some VLD with one of that VLD's references |
| NsdProperties.FlattenVldsSound | osm_im/im_translation.py:584 | every flattened row comes from some VLD |
| NsdProperties.FlattenVldsComplete | osm_im/im_translation.py:584 | every (VLD, reference) row is in the flattened list |
| NsdBuilder.GroupRowsByMemberKey | osm_im/im_translation.py:585-591 | the grouping loop yields the keys in first-appearance order and, per key, exactly the rows with that key in order |
| NsdProperties.GroupKeysSpec | osm_im/im_translation.py:585-595 | the member keys are distinct, are exactly the stringified member-vnf-index-refs, and follow first appearance |
| NsdProperties.RowsWithKeyMember | osm_im/im_translation.py:586-591 | a group holds exactly the rows with its key |
| NsdProperties.RowsWithKeyFirst | osm_im/im_translation.py:597 | a group is non-empty and starts with the first row carrying its key, whose vnfd-id-ref the profile takes |
| NsdBuilder.GetVnfProfiles | osm_im/im_translation.py:593-620 | the loop computes one vnf-profile per group, in key order |
| NsdBuilder.GetVnfProfile | osm_im/im_translation.py:595-618 | the method computes one group's vnf-profile |
| NsdBuilder.GetConnectivities | osm_im/im_translation.py:599-607 | the loop computes one connectivity per row, with cpd "<cp-ref>-ext" and the truthy ip-address |
| NsdRules.ProfileIndex | osm_im/im_translation.py:612 | the index found is the first entry with the profile id; none means no entry has it |
| NsdBuilder.MergeConnectivities | osm_im/im_translation.py:609-618 | the merge loop computes the merge-by-profile rule |
| NsdProperties.MergeStepFound | osm_im/im_translation.py:612-614 | extending the first entry of a known profile id keeps the merge invariant |
| NsdProperties.MergeStepNew | osm_im/im_translation.py:615-616 | adding a new profile id keeps the merge invariant |
| NsdProperties.MergeByProfileSpec | osm_im/im_translation.py:609-618 | the merged list holds the first entry of each profile id, in order, each with the in-order concatenation of all cpds for that id |
| NsdProperties.MergeByProfileDistinct | osm_im/im_translation.py:609-618 | the merged profile ids are pairwise distinct and are exactly the input's ids |
| NsdProperties.VnfProfilesSpec | osm_im/im_translation.py:595-620 | profile i has id = key i and vnfd-id from the key's first row, and its connectivities are that group's merged rows |
| NsdBuilder.GetVirtualLinkDescs | osm_im/im_translation.py:624-634 | the loop computes one virtual-link-desc per VLD |
| NsdProperties.VldsSingleDf | osm_im/im_translation.py:593-634 | there is always exactly one df "default-df" whose profiles follow the group keys, and one virtual-link-desc per VLD with its id, omitted when there are no VLDs |

## Left out

- Schema validation by the foreign library (line 81) is a parameter `validate` of type `Validator`. Its verdict is taken as given; a rejection becomes the TranslationException of line 83.
- Reading YAML or JSON and the pyangbind decoding are not modelled: the input is already a typed IM document.
- Only one top-level key is represented. The engine reads the first key of the mapping, so documents with several keys and the empty mapping (an IndexError at line 87) are not modelled.
- `float(memory-mb) / 1024.0` (line 136) is a `real` quotient, not IEEE floating point.
- String-to-integer coercions by `int()` (lines 131, 134, 333, 359, 364-365, 375, 488, 499) are assumed to succeed: the inputs are integers.
- kdu, placement-groups, vnf-configuration, vdu-configuration, alarm, scaling-policy and the other copied subtrees are opaque values.
- The engine writes an `id` into the input's vdu-configuration and vnf-configuration (lines 289, 417). The model sets that id on the copied output only; the change to the input is not modelled.
- An alternative image without an `image` key yields `None` in the engine. The model gives every alternative image a name.
- NsdBuilder.Builder.AddConstituentVnfds: the engine lists a Python set, so its order depends on hashing. The model fixes first-appearance order, and the contracts claim only no duplicates and set equality.
- The "should not happen" branch of the dispatcher (lines 41-44) cannot be reached: the model has only the two descriptor types.
- NSD rows keep the keys the engine reads later: id, member-vnf-index-ref, vnfd-id-ref, the cp-ref and ip-address. Other VLD and reference keys merged at line 584 are not carried.
- Keys the engine subscripts without a default are plain, always-present fields: the ids of VNFD, VDU, internal VLD, ip-profile, VDU monitoring-param, monitoring-param, k8s net, NSD and NSD VLD, interface names, internal-connection-point id-refs and scaling-group names (lines 105, 264, 328, 401, 430, 461, 463, 486, 535, 561, 600, 626). The KeyError a document lacking one of them raises is not modelled, and Translation.EnvelopeErrors lists only the errors that remain.
