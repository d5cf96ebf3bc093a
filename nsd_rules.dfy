/** What each stage of the IM NSD -> SOL006 NSD translation writes (osm_im/im_translation.py,
    lines 67-73 and 560-634), as functions of the IM descriptor and of the output mapping the
    earlier stages left. The imperative stages in module NsdBuilder are proved to compute these. */
module NsdRules {
  import opened Wrappers
  import opened Seqs
  import Strings
  import Im
  import opened Sol006
  import VnfdRules

  // ---------------------------------------------------------------- basic data

  function BasicData(n: Im.Nsd, out: Nsd): Nsd
  {
    out.(id := Some(n.id),
         name := VnfdRules.CopyIfTruthy(n.name, out.name),
         description := VnfdRules.CopyIfTruthy(n.description, out.description),
         designer := VnfdRules.CopyIfTruthy(n.vendor, out.designer),
         version := VnfdRules.CopyIfTruthy(n.version, out.version))
  }

  // ---------------------------------------------------------------- constituent VNFDs

  function VnfdIdRefOf(c: Im.ConstituentVnfd): Option<string>
  {
    if Im.Truthy(c.vnfdIdRef) then c.vnfdIdRef else None
  }

  /** The distinct truthy vnfd-id-refs. The engine collects them in a set; the model lists them
      in order of first appearance. */
  function ConstituentVnfdIds(n: Im.Nsd): seq<string>
  {
    FirstOccurrences(Collect(n.constituentVnfds, VnfdIdRefOf), Identity)
  }

  function ConstituentVnfds(n: Im.Nsd, out: Nsd): Nsd
  {
    out.(vnfdId := SetIfNonEmpty(out.vnfdId, ConstituentVnfdIds(n)))
  }

  // ---------------------------------------------------------------- flattening

  /** Python's `str()` of a VLD's connection point reference list, which the engine formats into
      a constituent-cpd-id when a reference has no `vnfd-connection-point-ref` of its own. */
  type RenderRefs = seq<Im.VnfdConnectionPointRef> -> string

  /** One entry of the flattened VLD list: a VLD merged with one of its connection point
      references, the reference's keys winning. */
  datatype Row = Row(
    vldId: string,
    memberVnfIndexRef: Option<Im.MemberIndex>,
    vnfdIdRef: Option<string>,
    cpRef: string,
    ipAddress: Option<string>)

  /** A key of the merged mapping `{**vld, **cp}`: the reference's own value if it has the key,
      the VLD's otherwise. */
  function Merged<T>(own: Option<T>, inherited: Option<T>): Option<T>
  {
    if own.Some? then own else inherited
  }

  function RowOf(vld: Im.NsVld, cp: Im.VnfdConnectionPointRef, render: RenderRefs): Row
  {
    Row(match cp.id
        case Some(i) => i
        case None => vld.id,
        Merged(cp.memberVnfIndexRef, vld.memberVnfIndexRef),
        Merged(cp.vnfdIdRef, vld.vnfdIdRef),
        match cp.vnfdConnectionPointRef
        case Some(r) => r
        case None => render(vld.connectionPointRefs),
        Merged(cp.ipAddress, vld.ipAddress))
  }

  function VldRows(vld: Im.NsVld, render: RenderRefs): (r: seq<Row>)
    ensures |r| == |vld.connectionPointRefs|
  {
    seq(|vld.connectionPointRefs|, j requires 0 <= j < |vld.connectionPointRefs| => RowOf(vld, vld.connectionPointRefs[j], render))
  }

  /** One row per (VLD, connection point reference) pair, VLD by VLD, in order. */
  function FlattenVlds(vlds: seq<Im.NsVld>, render: RenderRefs): seq<Row>
  {
    if vlds == [] then [] else FlattenVlds(vlds[..|vlds| - 1], render) + VldRows(vlds[|vlds| - 1], render)
  }

  // ---------------------------------------------------------------- grouping by member VNF index

  /** `str(member-vnf-index-ref)`, the empty string when the key is absent. */
  function MemberKey(r: Row): string
  {
    match r.memberVnfIndexRef
    case None => ""
    case Some(m) => if m.IndexStr? then m.s else Strings.IntToString(m.n)
  }

  /** The member keys in order of first appearance (the grouping dict's key order). */
  function GroupKeys(rows: seq<Row>): seq<string>
  {
    Map(FirstOccurrences(rows, MemberKey), MemberKey)
  }

  /** The rows with member key `k`, in order. */
  function RowsWithKey(rows: seq<Row>, k: string): seq<Row>
  {
    if rows == [] then [] else
      var rest := RowsWithKey(rows[..|rows| - 1], k);
      if MemberKey(rows[|rows| - 1]) == k then rest + [rows[|rows| - 1]] else rest
  }

  lemma RowsWithKeySnoc(rows: seq<Row>, r: Row)
    ensures forall k :: RowsWithKey(rows + [r], k) == if MemberKey(r) == k then RowsWithKey(rows, k) + [r] else RowsWithKey(rows, k)
  {
    assert (rows + [r])[..|rows|] == rows;
  }

  // ---------------------------------------------------------------- VNF profiles

  function ConnectivityOf(key: string, r: Row): VirtualLinkConnectivity
  {
    VirtualLinkConnectivity(r.vldId, [ConstituentCpd(key, VnfdRules.ExtCpdId(r.cpRef), if Im.Truthy(r.ipAddress) then r.ipAddress else None)])
  }

  /** One virtual-link-connectivity per row of the group. */
  function Connectivities(key: string, rs: seq<Row>): seq<VirtualLinkConnectivity>
  {
    if rs == [] then [] else Connectivities(key, rs[..|rs| - 1]) + [ConnectivityOf(key, rs[|rs| - 1])]
  }

  function ProfileId(c: VirtualLinkConnectivity): string { c.virtualLinkProfileId }

  /** The first index of an entry with virtual-link-profile-id `id`. */
  function ProfileIndex(cs: seq<VirtualLinkConnectivity>, id: string): (r: Option<nat>)
    ensures r.Some? ==> r.value < |cs| && cs[r.value].virtualLinkProfileId == id &&
                        forall j :: 0 <= j < r.value ==> cs[j].virtualLinkProfileId != id
    ensures r.None? ==> forall j :: 0 <= j < |cs| ==> cs[j].virtualLinkProfileId != id
  {
    if cs == [] then None
    else if cs[0].virtualLinkProfileId == id then Some(0)
    else match ProfileIndex(cs[1..], id)
         case None => None
         case Some(k) => Some(k + 1)
  }

  /** The merge loop: the first entry of each virtual-link-profile-id collects the constituent
      cpds of the later ones. */
  function MergeByProfile(cs: seq<VirtualLinkConnectivity>): seq<VirtualLinkConnectivity>
  {
    if cs == [] then [] else
      var rest := MergeByProfile(cs[..|cs| - 1]);
      var c := cs[|cs| - 1];
      match ProfileIndex(rest, c.virtualLinkProfileId)
      case Some(k) => rest[k := rest[k].(constituentCpdId := rest[k].constituentCpdId + c.constituentCpdId)]
      case None => rest + [c]
  }

  function VnfProfileFor(key: string, rs: seq<Row>): VnfProfile
  {
    VnfProfile(key, if |rs| > 0 then rs[0].vnfdIdRef else None, MergeByProfile(Connectivities(key, rs)))
  }

  function VnfProfiles(rows: seq<Row>): (r: seq<VnfProfile>)
    ensures |r| == |GroupKeys(rows)|
  {
    var keys := GroupKeys(rows);
    seq(|keys|, i requires 0 <= i < |keys| => VnfProfileFor(keys[i], RowsWithKey(rows, keys[i])))
  }

  // ---------------------------------------------------------------- VLD stage

  function VirtualLinkDescOf(vld: Im.NsVld): VirtualLinkDesc
  {
    VirtualLinkDesc(vld.id, if vld.mgmtNetwork == Some(true) then Some(true) else None, VnfdRules.IfTruthy(vld.vimNetworkName))
  }

  function Vlds(n: Im.Nsd, out: Nsd, render: RenderRefs): Nsd
  {
    out.(df := Some([NsDf(VnfdRules.DefaultDfId, VnfProfiles(FlattenVlds(n.vlds, render)))]),
         virtualLinkDesc := SetIfNonEmpty(out.virtualLinkDesc, Map(n.vlds, VirtualLinkDescOf)))
  }

  /** The three stages in order on an empty mapping; none of them raises. */
  function TranslateNsd(n: Im.Nsd, render: RenderRefs): Nsd
  {
    Vlds(n, ConstituentVnfds(n, BasicData(n, EmptyNsd)), render)
  }
}
