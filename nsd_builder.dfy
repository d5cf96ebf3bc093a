/** The NSD translation as the engine performs it (osm_im/im_translation.py, lines 67-73 and
    560-634): an output mapping, one field per SOL006 key, that three stages update in order,
    each proved to leave the mapping the matching function of module NsdRules describes. */
module NsdBuilder {
  import opened Wrappers
  import opened Seqs
  import Im
  import opened Sol006
  import VnfdRules
  import opened NsdRules

  /** The constituent-vnfd scan: each truthy vnfd-id-ref once. */
  method CollectConstituentVnfdIds(n: Im.Nsd) returns (ids: seq<string>)
    ensures ids == ConstituentVnfdIds(n)
  {
    ids := [];
    var seen: set<string> := {};
    var cvs := n.constituentVnfds;
    for i := 0 to |cvs|
      invariant ids == FirstOccurrences(Collect(cvs[..i], VnfdIdRefOf), Identity)
      invariant seen == KeySet(ids, Identity)
    {
      TakeSnoc(cvs, i);
      CollectSnoc(cvs[..i], cvs[i], VnfdIdRefOf);
      if Im.Truthy(cvs[i].vnfdIdRef) {
        var ref := cvs[i].vnfdIdRef.value;
        FirstOccurrencesSnoc(Collect(cvs[..i], VnfdIdRefOf), ref, Identity);
        if ref !in seen {
          KeySetSnoc(ids, ref, Identity);
          ids := ids + [ref];
          seen := seen + {ref};
        }
      }
    }
    TakeAll(cvs);
  }

  /** What the grouping loop keeps after a prefix `rows` of the flattened list: the keys in order
      of first appearance and, for each, exactly its rows. */
  ghost predicate Grouped(rows: seq<Row>, keys: seq<string>, groups: map<string, seq<Row>>)
  {
    && keys == GroupKeys(rows)
    && (forall k :: k in groups <==> k in keys)
    && (forall k :: k in groups ==> groups[k] == RowsWithKey(rows, k))
    && (forall k :: k !in groups ==> RowsWithKey(rows, k) == [])
  }

  /** A row whose key is already grouped joins its group. */
  lemma GroupedExisting(rows: seq<Row>, r: Row, keys: seq<string>, groups: map<string, seq<Row>>)
    requires Grouped(rows, keys, groups) && MemberKey(r) in groups
    ensures Grouped(rows + [r], keys, groups[MemberKey(r) := groups[MemberKey(r)] + [r]])
  {
    RowsWithKeySnoc(rows, r);
    FirstOccurrencesSnoc(rows, r, MemberKey);
    MapKeySet(FirstOccurrences(rows, MemberKey), MemberKey, MemberKey(r));
  }

  /** A row with a new key opens a group and appends the key. */
  lemma GroupedNew(rows: seq<Row>, r: Row, keys: seq<string>, groups: map<string, seq<Row>>)
    requires Grouped(rows, keys, groups) && MemberKey(r) !in groups
    ensures Grouped(rows + [r], keys + [MemberKey(r)], groups[MemberKey(r) := [r]])
  {
    RowsWithKeySnoc(rows, r);
    ghost var firsts := FirstOccurrences(rows, MemberKey);
    FirstOccurrencesSnoc(rows, r, MemberKey);
    MapKeySet(firsts, MemberKey, MemberKey(r));
    MapSnoc(firsts, r, MemberKey);
  }

  /** The grouping loop: the rows of each member key, the keys in order of first appearance. */
  method GroupRowsByMemberKey(rows: seq<Row>) returns (keys: seq<string>, groups: map<string, seq<Row>>)
    ensures keys == GroupKeys(rows)
    ensures forall k :: k in groups <==> k in keys
    ensures forall k :: k in groups ==> groups[k] == RowsWithKey(rows, k)
  {
    keys, groups := [], map[];
    for i := 0 to |rows|
      invariant Grouped(rows[..i], keys, groups)
    {
      var r := rows[i];
      var k := MemberKey(r);
      TakeSnoc(rows, i);
      if k in groups {
        GroupedExisting(rows[..i], r, keys, groups);
        groups := groups[k := groups[k] + [r]];
      } else {
        GroupedNew(rows[..i], r, keys, groups);
        groups := groups[k := [r]];
        keys := keys + [k];
      }
    }
    TakeAll(rows);
  }

  /** One virtual-link-connectivity per row of a group. */
  method GetConnectivities(key: string, rs: seq<Row>) returns (cs: seq<VirtualLinkConnectivity>)
    ensures cs == Connectivities(key, rs)
  {
    cs := [];
    for i := 0 to |rs|
      invariant cs == Connectivities(key, rs[..i])
    {
      TakeSnoc(rs, i);
      var r := rs[i];
      var cpd := ConstituentCpd(key, VnfdRules.ExtCpdId(r.cpRef), None);
      if Im.Truthy(r.ipAddress) {
        cpd := cpd.(ipAddress := r.ipAddress);
      }
      cs := cs + [VirtualLinkConnectivity(r.vldId, [cpd])];
    }
    TakeAll(rs);
  }

  /** The merge loop, with the engine's id -> entry dictionary kept as a map to positions. */
  method MergeConnectivities(cs: seq<VirtualLinkConnectivity>) returns (merged: seq<VirtualLinkConnectivity>)
    ensures merged == MergeByProfile(cs)
  {
    merged := [];
    var positions: map<string, nat> := map[];
    for i := 0 to |cs|
      invariant merged == MergeByProfile(cs[..i])
      invariant forall id :: id in positions ==> positions[id] < |merged| && merged[positions[id]].virtualLinkProfileId == id
      invariant forall j :: 0 <= j < |merged| ==> merged[j].virtualLinkProfileId in positions && positions[merged[j].virtualLinkProfileId] == j
    {
      TakeSnoc(cs, i);
      var c := cs[i];
      var id := c.virtualLinkProfileId;
      if id in positions {
        var k := positions[id];
        merged := merged[k := merged[k].(constituentCpdId := merged[k].constituentCpdId + c.constituentCpdId)];
      } else {
        positions := positions[id := |merged|];
        merged := merged + [c];
      }
    }
    TakeAll(cs);
  }

  /** The vnf-profile of one member key. */
  method GetVnfProfile(key: string, rs: seq<Row>) returns (p: VnfProfile)
    ensures p == VnfProfileFor(key, rs)
  {
    var cs := GetConnectivities(key, rs);
    var merged := MergeConnectivities(cs);
    p := VnfProfile(key, if |rs| > 0 then rs[0].vnfdIdRef else None, merged);
  }

  /** The vnf-profile loop: one profile per member key, in the grouping's key order. */
  method GetVnfProfiles(rows: seq<Row>) returns (profiles: seq<VnfProfile>)
    ensures profiles == VnfProfiles(rows)
  {
    var keys, groups := GroupRowsByMemberKey(rows);
    ghost var all := VnfProfiles(rows);
    profiles := [];
    for i := 0 to |keys|
      invariant profiles == all[..i]
    {
      var k := keys[i];
      assert k in keys;
      var p := GetVnfProfile(k, groups[k]);
      TakeSnoc(all, i);
      profiles := profiles + [p];
    }
    TakeAll(all);
  }

  /** One virtual-link-desc per VLD. */
  method GetVirtualLinkDescs(vlds: seq<Im.NsVld>) returns (descs: seq<VirtualLinkDesc>)
    ensures descs == Map(vlds, VirtualLinkDescOf)
  {
    descs := [];
    for i := 0 to |vlds|
      invariant descs == Map(vlds[..i], VirtualLinkDescOf)
    {
      TakeSnoc(vlds, i);
      MapSnoc(vlds[..i], vlds[i], VirtualLinkDescOf);
      var desc := VirtualLinkDesc(vlds[i].id, None, None);
      if vlds[i].mgmtNetwork == Some(true) {
        desc := desc.(mgmtNetwork := Some(true));
      }
      if Im.Truthy(vlds[i].vimNetworkName) {
        desc := desc.(vimNetworkName := vlds[i].vimNetworkName);
      }
      descs := descs + [desc];
    }
    TakeAll(vlds);
  }

  /** The SOL006 NSD mapping under construction. */
  class Builder {
    var id: Option<string>
    var name: Option<string>
    var description: Option<string>
    var designer: Option<string>
    var version: Option<string>
    var vnfdId: Option<seq<string>>
    var df: Option<seq<NsDf>>
    var virtualLinkDesc: Option<seq<VirtualLinkDesc>>

    function Snapshot(): Nsd
      reads this
    {
      Nsd(id, name, description, designer, version, vnfdId, df, virtualLinkDesc)
    }

    constructor ()
      ensures Snapshot() == EmptyNsd
    {
      id, name, description, designer, version := None, None, None, None, None;
      vnfdId, df, virtualLinkDesc := None, None, None;
    }

    method AddBasicData(n: Im.Nsd)
      modifies this
      ensures Snapshot() == BasicData(n, old(Snapshot()))
    {
      id := Some(n.id);
      if Im.Truthy(n.name) { name := n.name; }
      if Im.Truthy(n.description) { description := n.description; }
      if Im.Truthy(n.vendor) { designer := n.vendor; }
      if Im.Truthy(n.version) { version := n.version; }
    }

    method AddConstituentVnfds(n: Im.Nsd)
      modifies this
      ensures Snapshot() == ConstituentVnfds(n, old(Snapshot()))
    {
      var ids := CollectConstituentVnfdIds(n);
      if |ids| > 0 {
        vnfdId := Some(ids);
      }
    }

    method AddVlds(n: Im.Nsd, render: RenderRefs)
      modifies this
      ensures Snapshot() == Vlds(n, old(Snapshot()), render)
    {
      var rows := FlattenVlds(n.vlds, render);
      var profiles := GetVnfProfiles(rows);
      df := Some([NsDf(VnfdRules.DefaultDfId, profiles)]);
      var descs := GetVirtualLinkDescs(n.vlds);
      if |descs| > 0 {
        virtualLinkDesc := Some(descs);
      }
    }
  }

  /** The three stages on a fresh mapping. */
  method BuildSol006Nsd(n: Im.Nsd, render: RenderRefs) returns (r: Nsd)
    ensures r == TranslateNsd(n, render)
  {
    var b := new Builder();
    b.AddBasicData(n);
    b.AddConstituentVnfds(n);
    b.AddVlds(n, render);
    r := b.Snapshot();
  }
}
