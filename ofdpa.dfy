/** Abstract view of the OF-DPA client binding that the snake script drives.

    Only the record fields the script sets are modelled. The numeric values of
    the binding's constants (table ids, OFDPA_VID_PRESENT, OFDPA_VID_NONE,
    OFDPA_VID_EXACT_MASK, OFDPA_INPORT_EXACT_MASK) and the bit layout of a
    group id are not part of this model: each is a symbolic constructor here.
    Every RPC that installs something on the switch becomes one `Call` value,
    so a run of the script is described by the sequence of calls it issues. */
module Ofdpa {

  /** The flow tables the script names. */
  datatype FlowTableId = VlanTable | TerminationMacTable | AclPolicyTable

  /** The group entry types the script names. */
  datatype GroupType = L2InterfaceGroup

  /** The value a VLAN flow matches against a frame's VLAN field:
      OFDPA_VID_PRESENT or'd with a VLAN id, or OFDPA_VID_NONE (no tag). */
  datatype VlanIdMatch = VidPresent(vid: int) | VidNone

  /** The mask of that match: OFDPA_VID_PRESENT | OFDPA_VID_EXACT_MASK,
      or a literal bit mask. */
  datatype VlanIdMask = VidPresentExactMask | VidMaskBits(bits: int)

  /** The in-port mask of an ACL flow: OFDPA_INPORT_EXACT_MASK. */
  datatype InPortMask = InPortExactMask

  /** A group id as composed by ofdpaGroupTypeSet, ofdpaGroupVlanSet and
      ofdpaGroupPortIdSet: it is determined by these three fields and nothing else. */
  datatype GroupId = GroupId(groupType: GroupType, vlanId: int, portId: int)

  /** The part of a flow entry that depends on its table. */
  datatype FlowData =
    | VlanFlowEntry(gotoTableId: FlowTableId, inPort: int, vlanId: VlanIdMatch,
                    vlanIdMask: VlanIdMask, setVlanIdAction: int, newVlanId: int)
    | PolicyAclFlowEntry(inPort: int, inPortMask: InPortMask, groupId: GroupId)

  datatype FlowEntry = FlowEntry(tableId: FlowTableId, flowData: FlowData)

  datatype GroupEntry = GroupEntry(groupId: GroupId)

  datatype GroupBucketEntry =
    GroupBucketEntry(groupId: GroupId, bucketIndex: int, outputPort: int, popVlanTag: int)

  /** One install RPC: ofdpaFlowAdd, ofdpaGroupAdd or ofdpaGroupBucketEntryAdd. */
  datatype Call =
    | FlowAdd(flow: FlowEntry)
    | GroupAdd(group: GroupEntry)
    | GroupBucketEntryAdd(bucket: GroupBucketEntry)

  /** The key the switch files an installed entry under: a second install
      with the same key collides with the first. */
  datatype EntryKey =
    | VlanFlowKey(inPort: int, vlanId: VlanIdMatch, vlanIdMask: VlanIdMask)
    | AclFlowKey(inPort: int, inPortMask: InPortMask)
    | GroupKey(groupId: GroupId)
    | BucketKey(groupId: GroupId, bucketIndex: int)

  function KeyOf(c: Call): EntryKey
  {
    match c
    case FlowAdd(FlowEntry(_, VlanFlowEntry(_, p, m, k, _, _))) => VlanFlowKey(p, m, k)
    case FlowAdd(FlowEntry(_, PolicyAclFlowEntry(p, k, _))) => AclFlowKey(p, k)
    case GroupAdd(e) => GroupKey(e.groupId)
    case GroupBucketEntryAdd(b) => BucketKey(b.groupId, b.bucketIndex)
  }

  /** The switch port a key is about: the matched in-port of a flow, the
      output port encoded in a group id. */
  function KeyPort(k: EntryKey): int
  {
    match k
    case VlanFlowKey(p, _, _) => p
    case AclFlowKey(p, _) => p
    case GroupKey(g) => g.portId
    case BucketKey(g, _) => g.portId
  }

  /** No two calls of `t` install entries under the same key. */
  predicate DistinctKeys(t: seq<Call>)
  {
    forall i, j :: 0 <= i < j < |t| ==> KeyOf(t[i]) != KeyOf(t[j])
  }

  /** `t` adds the group `g`. */
  predicate HasGroup(t: seq<Call>, g: GroupId)
  {
    exists i :: 0 <= i < |t| && t[i] == GroupAdd(GroupEntry(g))
  }

  /** `t` adds a bucket to the group `g`. */
  predicate HasBucket(t: seq<Call>, g: GroupId)
  {
    exists i :: 0 <= i < |t| && t[i].GroupBucketEntryAdd? && t[i].bucket.groupId == g
  }

  /** The call `c`, issued after the calls `before`, refers only to what
      `before` has installed: a bucket to an added group, an ACL flow to a
      group that has been added and given a bucket. */
  predicate ResolvedAfter(before: seq<Call>, c: Call)
  {
    match c
    case GroupBucketEntryAdd(b) => HasGroup(before, b.groupId)
    case FlowAdd(FlowEntry(_, PolicyAclFlowEntry(_, _, g))) => HasGroup(before, g) && HasBucket(before, g)
    case _ => true
  }

  /** Every call of `t` refers only to entries installed earlier in `t`. */
  predicate ReferencesResolved(t: seq<Call>)
  {
    forall j :: 0 <= j < |t| ==> ResolvedAfter(t[..j], t[j])
  }
}
