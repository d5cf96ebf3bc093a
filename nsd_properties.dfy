/** Properties of the NSD translation (osm_im/im_translation.py, lines 560-634), proved about the
    stage functions of module NsdRules. */
module NsdProperties {
  import opened Wrappers
  import opened Seqs
  import Im
  import opened Sol006
  import VnfdRules
  import opened NsdRules

  // ---------------------------------------------------------------- constituent VNFDs

  /** vnfd-id lists every truthy vnfd-id-ref of the constituent VNFDs, and each only once. */
  lemma {:induction false} ConstituentVnfdIdsSpec(n: Im.Nsd)
    ensures forall i, j :: 0 <= i < j < |ConstituentVnfdIds(n)| ==> ConstituentVnfdIds(n)[i] != ConstituentVnfdIds(n)[j]
    ensures forall x :: x in ConstituentVnfdIds(n) <==>
              exists i :: 0 <= i < |n.constituentVnfds| && Im.Truthy(n.constituentVnfds[i].vnfdIdRef) &&
                          n.constituentVnfds[i].vnfdIdRef.value == x
  {
    var refs := Collect(n.constituentVnfds, VnfdIdRefOf);
    FirstOccurrencesKeys(refs, Identity);
    var ids := ConstituentVnfdIds(n);
    assert KeysDistinct(ids, Identity);
    forall i, j | 0 <= i < j < |ids| ensures ids[i] != ids[j]
    {
      assert Identity(ids[i]) != Identity(ids[j]);
    }
    forall x
      ensures x in ids <==> exists i :: 0 <= i < |n.constituentVnfds| && Im.Truthy(n.constituentVnfds[i].vnfdIdRef) &&
                                        n.constituentVnfds[i].vnfdIdRef.value == x
    {
      CollectMember(n.constituentVnfds, VnfdIdRefOf, x);
      assert x in ids <==> Identity(x) in KeySet(ids, Identity);
      assert x in refs <==> Identity(x) in KeySet(refs, Identity);
    }
  }

  // ---------------------------------------------------------------- flattening

  /** The flattened list holds one row per (VLD, connection point reference) pair. */
  lemma FlattenVldsMember(vlds: seq<Im.NsVld>, render: RenderRefs, r: Row)
    ensures r in FlattenVlds(vlds, render) <==> exists i :: 0 <= i < |vlds| && RowFromVld(vlds[i], render, r)
  {
    if r in FlattenVlds(vlds, render) {
      FlattenVldsSound(vlds, render, r);
    }
    if exists i :: 0 <= i < |vlds| && RowFromVld(vlds[i], render, r) {
      var i :| 0 <= i < |vlds| && RowFromVld(vlds[i], render, r);
      FlattenVldsComplete(vlds, render, i, r);
    }
  }

  lemma {:induction false} FlattenVldsSound(vlds: seq<Im.NsVld>, render: RenderRefs, r: Row)
    requires r in FlattenVlds(vlds, render)
    ensures exists i :: 0 <= i < |vlds| && RowFromVld(vlds[i], render, r)
  {
    var p, v := vlds[..|vlds| - 1], vlds[|vlds| - 1];
    if r in FlattenVlds(p, render) {
      FlattenVldsSound(p, render, r);
      var i :| 0 <= i < |p| && RowFromVld(p[i], render, r);
      assert vlds[i] == p[i];
    } else {
      VldRowsMember(v, render, r);
      assert RowFromVld(vlds[|p|], render, r);
    }
  }

  lemma {:induction false} FlattenVldsComplete(vlds: seq<Im.NsVld>, render: RenderRefs, i: int, r: Row)
    requires 0 <= i < |vlds| && RowFromVld(vlds[i], render, r)
    ensures r in FlattenVlds(vlds, render)
  {
    var p, v := vlds[..|vlds| - 1], vlds[|vlds| - 1];
    if i < |p| {
      assert p[i] == vlds[i];
      FlattenVldsComplete(p, render, i, r);
    } else {
      VldRowsMember(v, render, r);
    }
  }

  /** A flattened row takes each key from the reference when the reference has it, and from
      the VLD otherwise; a reference without vnfd-connection-point-ref gets the VLD's whole
      reference list, rendered. */
  lemma RowOfMerge(vld: Im.NsVld, cp: Im.VnfdConnectionPointRef, render: RenderRefs)
    ensures RowOf(vld, cp, render).vldId == (if cp.id.Some? then cp.id.value else vld.id)
    ensures cp.memberVnfIndexRef.Some? ==> RowOf(vld, cp, render).memberVnfIndexRef == cp.memberVnfIndexRef
    ensures cp.memberVnfIndexRef.None? ==> RowOf(vld, cp, render).memberVnfIndexRef == vld.memberVnfIndexRef
    ensures cp.vnfdIdRef.Some? ==> RowOf(vld, cp, render).vnfdIdRef == cp.vnfdIdRef
    ensures cp.vnfdIdRef.None? ==> RowOf(vld, cp, render).vnfdIdRef == vld.vnfdIdRef
    ensures cp.ipAddress.Some? ==> RowOf(vld, cp, render).ipAddress == cp.ipAddress
    ensures cp.ipAddress.None? ==> RowOf(vld, cp, render).ipAddress == vld.ipAddress
    ensures RowOf(vld, cp, render).cpRef ==
              (if cp.vnfdConnectionPointRef.Some? then cp.vnfdConnectionPointRef.value else render(vld.connectionPointRefs))
  {
  }

  /** `r` merges VLD `vld` with one of its connection point references. */
  ghost predicate RowFromVld(vld: Im.NsVld, render: RenderRefs, r: Row)
  {
    exists j :: 0 <= j < |vld.connectionPointRefs| && r == RowOf(vld, vld.connectionPointRefs[j], render)
  }

  lemma VldRowsMember(vld: Im.NsVld, render: RenderRefs, r: Row)
    ensures r in VldRows(vld, render) <==> RowFromVld(vld, render, r)
  {
    var rows := VldRows(vld, render);
    if r in rows {
      var j :| 0 <= j < |rows| && rows[j] == r;
    }
    if RowFromVld(vld, render, r) {
      var j :| 0 <= j < |vld.connectionPointRefs| && r == RowOf(vld, vld.connectionPointRefs[j], render);
      assert rows[j] == r;
    }
  }

  // ---------------------------------------------------------------- grouping

  /** The vnf-profiles are keyed by the distinct member keys, in order of first appearance. */
  lemma {:induction false} GroupKeysSpec(rows: seq<Row>)
    ensures forall i, j :: 0 <= i < j < |GroupKeys(rows)| ==> GroupKeys(rows)[i] != GroupKeys(rows)[j]
    ensures forall k :: k in GroupKeys(rows) <==> exists i :: 0 <= i < |rows| && MemberKey(rows[i]) == k
    ensures forall i, j :: 0 <= i < j < |GroupKeys(rows)| ==>
              GroupKeys(rows)[i] in KeySet(rows, MemberKey) && GroupKeys(rows)[j] in KeySet(rows, MemberKey) &&
              FirstIndex(rows, MemberKey, GroupKeys(rows)[i]) < FirstIndex(rows, MemberKey, GroupKeys(rows)[j])
  {
    var firsts := FirstOccurrences(rows, MemberKey);
    FirstOccurrencesKeys(rows, MemberKey);
    FirstOccurrencesAreFirst(rows, MemberKey);
    forall k
      ensures k in GroupKeys(rows) <==> exists i :: 0 <= i < |rows| && MemberKey(rows[i]) == k
    {
      MapKeySet(firsts, MemberKey, k);
      if exists i :: 0 <= i < |rows| && MemberKey(rows[i]) == k {
        var i :| 0 <= i < |rows| && MemberKey(rows[i]) == k;
        assert rows[i] in rows;
      }
      if k in KeySet(rows, MemberKey) {
        var x :| x in rows && MemberKey(x) == k;
        var i :| 0 <= i < |rows| && rows[i] == x;
      }
    }
  }

  /** The rows of a group are the rows with that member key, in their original order. */
  lemma {:induction false} RowsWithKeyMember(rows: seq<Row>, k: string, r: Row)
    ensures r in RowsWithKey(rows, k) <==> r in rows && MemberKey(r) == k
  {
    if rows != [] {
      var p := rows[..|rows| - 1];
      RowsWithKeyMember(p, k, r);
      assert rows == p + [rows[|rows| - 1]];
    }
  }

  // ---------------------------------------------------------------- merging by virtual link profile

  /** The constituent cpds of the entries with profile id `id`, concatenated in order: the
      reference definition of what the merge loop builds. */
  function CpdsFor(cs: seq<VirtualLinkConnectivity>, id: string): seq<ConstituentCpd>
  {
    if cs == [] then [] else
      CpdsFor(cs[..|cs| - 1], id) + (if cs[|cs| - 1].virtualLinkProfileId == id then cs[|cs| - 1].constituentCpdId else [])
  }

  lemma CpdsForSnoc(cs: seq<VirtualLinkConnectivity>, c: VirtualLinkConnectivity, id: string)
    ensures CpdsFor(cs + [c], id) == CpdsFor(cs, id) + (if c.virtualLinkProfileId == id then c.constituentCpdId else [])
  {
    assert (cs + [c])[..|cs|] == cs;
  }

  lemma {:induction false} CpdsForAbsent(cs: seq<VirtualLinkConnectivity>, id: string)
    requires id !in KeySet(cs, ProfileId)
    ensures CpdsFor(cs, id) == []
  {
    if cs != [] {
      var p := cs[..|cs| - 1];
      assert cs[|cs| - 1] in cs;
      forall x | x in p ensures ProfileId(x) != id { assert x in cs; }
      CpdsForAbsent(p, id);
    }
  }

  /** `m` keeps one entry per virtual-link-profile-id of `cs`, in order of first appearance, and
      each entry holds the constituent cpds of every entry of `cs` with its id, in order. */
  ghost predicate MergedFrom(cs: seq<VirtualLinkConnectivity>, m: seq<VirtualLinkConnectivity>)
  {
    Map(m, ProfileId) == Map(FirstOccurrences(cs, ProfileId), ProfileId) &&
    forall k :: 0 <= k < |m| ==> m[k].constituentCpdId == CpdsFor(cs, m[k].virtualLinkProfileId)
  }

  /** The ids of a merged list are those of the first occurrences, position by position. */
  lemma MergedIdsAt(cs: seq<VirtualLinkConnectivity>, m: seq<VirtualLinkConnectivity>, j: int)
    requires MergedFrom(cs, m) && 0 <= j < |m|
    ensures j < |FirstOccurrences(cs, ProfileId)|
    ensures m[j].virtualLinkProfileId == FirstOccurrences(cs, ProfileId)[j].virtualLinkProfileId
  {
    assert Map(m, ProfileId)[j] == Map(FirstOccurrences(cs, ProfileId), ProfileId)[j];
  }

  /** The ids of a merged list are distinct. */
  lemma MergedIdsDistinct(cs: seq<VirtualLinkConnectivity>, m: seq<VirtualLinkConnectivity>, i: int, j: int)
    requires MergedFrom(cs, m) && 0 <= i < |m| && 0 <= j < |m| && i != j
    ensures m[i].virtualLinkProfileId != m[j].virtualLinkProfileId
  {
    var fo := FirstOccurrences(cs, ProfileId);
    FirstOccurrencesDistinct(cs, ProfileId);
    MergedIdsAt(cs, m, i);
    MergedIdsAt(cs, m, j);
    if i < j {
      assert ProfileId(fo[i]) != ProfileId(fo[j]);
    } else {
      assert ProfileId(fo[j]) != ProfileId(fo[i]);
    }
  }

  /** A later entry whose id is already present extends that entry's cpds. */
  lemma MergeStepFound(p: seq<VirtualLinkConnectivity>, c: VirtualLinkConnectivity, rest: seq<VirtualLinkConnectivity>, k: nat)
    requires MergedFrom(p, rest)
    requires k < |rest| && rest[k].virtualLinkProfileId == c.virtualLinkProfileId
    ensures MergedFrom(p + [c], rest[k := rest[k].(constituentCpdId := rest[k].constituentCpdId + c.constituentCpdId)])
  {
    var id := c.virtualLinkProfileId;
    var fo := FirstOccurrences(p, ProfileId);
    MergedIdsAt(p, rest, k);
    assert fo[k] in fo;
    FirstOccurrencesSnoc(p, c, ProfileId);
    assert FirstOccurrences(p + [c], ProfileId) == fo;
    var m := rest[k := rest[k].(constituentCpdId := rest[k].constituentCpdId + c.constituentCpdId)];
    assert Map(m, ProfileId) == Map(rest, ProfileId) by {
      forall j | 0 <= j < |m| ensures Map(m, ProfileId)[j] == Map(rest, ProfileId)[j] { }
    }
    forall j | 0 <= j < |m|
      ensures m[j].constituentCpdId == CpdsFor(p + [c], m[j].virtualLinkProfileId)
    {
      CpdsForSnoc(p, c, m[j].virtualLinkProfileId);
      if j != k {
        MergedIdsDistinct(p, rest, j, k);
      }
    }
  }

  /** An id the merged list lacks occurs nowhere in the input. */
  lemma MergedAbsent(p: seq<VirtualLinkConnectivity>, rest: seq<VirtualLinkConnectivity>, id: string)
    requires MergedFrom(p, rest)
    requires forall j :: 0 <= j < |rest| ==> rest[j].virtualLinkProfileId != id
    ensures id !in KeySet(FirstOccurrences(p, ProfileId), ProfileId)
    ensures id !in KeySet(p, ProfileId)
  {
    var fo := FirstOccurrences(p, ProfileId);
    FirstOccurrencesKeySet(p, ProfileId);
    MapKeySet(fo, ProfileId, id);
    assert id !in Map(rest, ProfileId);
  }

  /** An entry with a new id is appended as it is. */
  lemma MergeStepNew(p: seq<VirtualLinkConnectivity>, c: VirtualLinkConnectivity, rest: seq<VirtualLinkConnectivity>)
    requires MergedFrom(p, rest)
    requires forall j :: 0 <= j < |rest| ==> rest[j].virtualLinkProfileId != c.virtualLinkProfileId
    ensures MergedFrom(p + [c], rest + [c])
  {
    var id := c.virtualLinkProfileId;
    var fo := FirstOccurrences(p, ProfileId);
    MergedAbsent(p, rest, id);
    FirstOccurrencesSnoc(p, c, ProfileId);
    assert FirstOccurrences(p + [c], ProfileId) == fo + [c];
    MapSnoc(rest, c, ProfileId);
    MapSnoc(fo, c, ProfileId);
    var m := rest + [c];
    forall j | 0 <= j < |m|
      ensures m[j].constituentCpdId == CpdsFor(p + [c], m[j].virtualLinkProfileId)
    {
      CpdsForSnoc(p, c, m[j].virtualLinkProfileId);
      if j == |rest| {
        CpdsForAbsent(p, id);
      } else {
        assert m[j] == rest[j];
      }
    }
  }

  /** What the merge loop builds agrees with the reference definition. */
  lemma {:induction false} MergeByProfileSpec(cs: seq<VirtualLinkConnectivity>)
    ensures MergedFrom(cs, MergeByProfile(cs))
  {
    if cs != [] {
      var p, c := cs[..|cs| - 1], cs[|cs| - 1];
      assert cs == p + [c];
      MergeByProfileSpec(p);
      var rest := MergeByProfile(p);
      match ProfileIndex(rest, c.virtualLinkProfileId)
      case Some(k) => MergeStepFound(p, c, rest, k);
      case None => MergeStepNew(p, c, rest);
    }
  }

  /** Within one vnf-profile no two virtual-link-connectivity entries share a profile id. */
  lemma MergeByProfileDistinct(cs: seq<VirtualLinkConnectivity>)
    ensures forall i, j :: 0 <= i < j < |MergeByProfile(cs)| ==>
              MergeByProfile(cs)[i].virtualLinkProfileId != MergeByProfile(cs)[j].virtualLinkProfileId
    ensures forall id :: id in Map(MergeByProfile(cs), ProfileId) <==> id in KeySet(cs, ProfileId)
  {
    MergeByProfileSpec(cs);
    var fo := FirstOccurrences(cs, ProfileId);
    FirstOccurrencesKeys(cs, ProfileId);
    var m := MergeByProfile(cs);
    forall i, j | 0 <= i < j < |m| ensures m[i].virtualLinkProfileId != m[j].virtualLinkProfileId
    {
      MergedIdsAt(cs, m, i);
      MergedIdsAt(cs, m, j);
      assert ProfileId(fo[i]) != ProfileId(fo[j]);
    }
    forall id ensures id in Map(m, ProfileId) <==> id in KeySet(cs, ProfileId)
    {
      MapKeySet(fo, ProfileId, id);
    }
  }

  /** The first row of a group is the first row with its member key. */
  lemma {:induction false} RowsWithKeyFirst(rows: seq<Row>, k: string)
    requires k in KeySet(rows, MemberKey)
    ensures |RowsWithKey(rows, k)| > 0
    ensures RowsWithKey(rows, k)[0] == rows[FirstIndex(rows, MemberKey, k)]
  {
    var p, r := rows[..|rows| - 1], rows[|rows| - 1];
    assert rows == p + [r];
    KeySetSnoc(p, r, MemberKey);
    if k in KeySet(p, MemberKey) {
      RowsWithKeyFirst(p, k);
      FirstIndexPrefix(p, [r], MemberKey, k);
    } else {
      FirstIndexLast(p, r, MemberKey);
      if |RowsWithKey(p, k)| > 0 {
        RowsWithKeyMember(p, k, RowsWithKey(p, k)[0]);
        assert false;
      }
    }
  }

  /** One vnf-profile per member key, in order of first appearance: its vnfd-id is that of the
      key's first row, and its virtual-link-connectivity list is merged by profile id. */
  lemma VnfProfilesSpec(rows: seq<Row>)
    ensures forall i :: 0 <= i < |VnfProfiles(rows)| ==> VnfProfiles(rows)[i].id == GroupKeys(rows)[i]
    ensures forall i :: 0 <= i < |VnfProfiles(rows)| ==>
              GroupKeys(rows)[i] in KeySet(rows, MemberKey) &&
              VnfProfiles(rows)[i].vnfdId == rows[FirstIndex(rows, MemberKey, GroupKeys(rows)[i])].vnfdIdRef
    ensures forall i :: 0 <= i < |VnfProfiles(rows)| ==>
              MergedFrom(Connectivities(GroupKeys(rows)[i], RowsWithKey(rows, GroupKeys(rows)[i])),
                         VnfProfiles(rows)[i].virtualLinkConnectivity)
  {
    var keys := GroupKeys(rows);
    GroupKeysSpec(rows);
    forall i | 0 <= i < |keys|
      ensures keys[i] in KeySet(rows, MemberKey)
      ensures VnfProfiles(rows)[i].vnfdId == rows[FirstIndex(rows, MemberKey, keys[i])].vnfdIdRef
      ensures MergedFrom(Connectivities(keys[i], RowsWithKey(rows, keys[i])), VnfProfiles(rows)[i].virtualLinkConnectivity)
    {
      assert keys[i] in keys;
      var j :| 0 <= j < |rows| && MemberKey(rows[j]) == keys[i];
      assert rows[j] in rows;
      RowsWithKeyFirst(rows, keys[i]);
      MergeByProfileSpec(Connectivities(keys[i], RowsWithKey(rows, keys[i])));
    }
  }

  // ---------------------------------------------------------------- the VLD stage

  /** The VLD stage writes exactly one deployment flavour, `default-df`, with one vnf-profile per
      member key, and the virtual-link-desc list only when the NSD has VLDs. */
  lemma VldsSingleDf(n: Im.Nsd, out: Nsd, render: RenderRefs)
    ensures Vlds(n, out, render).df.Some? && |Vlds(n, out, render).df.value| == 1
    ensures Vlds(n, out, render).df.value[0].id == "default-df"
    ensures Map(Vlds(n, out, render).df.value[0].vnfProfile, ProfileKey) == GroupKeys(FlattenVlds(n.vlds, render))
    ensures |n.vlds| == 0 ==> Vlds(n, out, render).virtualLinkDesc == out.virtualLinkDesc
    ensures |n.vlds| > 0 ==>
              Vlds(n, out, render).virtualLinkDesc.Some? &&
              |Vlds(n, out, render).virtualLinkDesc.value| == |n.vlds| &&
              forall i :: 0 <= i < |n.vlds| ==> Vlds(n, out, render).virtualLinkDesc.value[i].id == n.vlds[i].id
  {
    var ps := VnfProfiles(FlattenVlds(n.vlds, render));
    assert Map(ps, ProfileKey) == GroupKeys(FlattenVlds(n.vlds, render));
  }

  function ProfileKey(p: VnfProfile): string { p.id }
}
