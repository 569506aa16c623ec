/** The planning core of the OF-DPA snake script: it validates the requested
    port range and VLAN, pairs adjacent ports, and for each pair issues the
    VLAN-classification flows, L2-interface groups with their buckets and the
    ACL redirect flows that patch the two ports to each other. The switch is
    an install log: each RPC appends one `Call` to it. */
module Snake {
  import opened Ofdpa

  datatype Option<T> = None | Some(value: T)

  /** Outcome of the OF-DPA client initialisation that precedes everything else. */
  datatype ClientInit = InitOk | InitFailed(rc: int)

  /** The exceptions the script raises before it installs anything. */
  datatype Error =
    | InitError(rc: int)
    | RangeError(startPort: int, endPort: int)
    | PortCountError(startPort: int, endPort: int, count: int)
    | VlanError(vlanId: int)

  /** Two adjacent ports patched to each other. */
  datatype PortPair = PortPair(first: int, second: int)

  const MaxVlanId := 4095

  /** The literal mask of the tag-absent classification flow. */
  const UntaggedVlanMask := 0x1fff

  /** The VLAN used inside the pipeline: VLAN 1 stands for untagged traffic. */
  function InternalVlan(vlanId: int): (r: int)
    ensures r != 0
    ensures vlanId == 0 ==> r == 1
    ensures vlanId != 0 ==> r == vlanId
    ensures 0 <= vlanId <= MaxVlanId ==> 1 <= r <= MaxVlanId
  {
    if vlanId == 0 then 1 else vlanId
  }

  /** The checks `main` makes, in the order it makes them. */
  function Validate(init: ClientInit, startPort: int, endPort: int, vlanId: int): (r: Option<Error>)
    ensures r == None <==>
      init.InitOk? && startPort < endPort && (endPort - startPort + 1) % 2 == 0 && 0 <= vlanId <= MaxVlanId
    ensures init.InitFailed? ==> r == Some(InitError(init.rc))
    ensures (r.Some? && r.value.RangeError?) <==> init.InitOk? && endPort <= startPort
    ensures (r.Some? && r.value.PortCountError?) <==>
      init.InitOk? && startPort < endPort && (endPort - startPort + 1) % 2 == 1
    ensures r.Some? && r.value.PortCountError? ==> r.value.count == endPort - startPort + 1 >= 3
    ensures (r.Some? && r.value.VlanError?) <==>
      init.InitOk? && startPort < endPort && (endPort - startPort + 1) % 2 == 0 && !(0 <= vlanId <= MaxVlanId)
  {
    if init.InitFailed? then Some(InitError(init.rc))
    else if endPort <= startPort then Some(RangeError(startPort, endPort))
    // endPort - startPort is positive here, so Python's floored % agrees with Dafny's
    else if (endPort - startPort) % 2 == 0 then Some(PortCountError(startPort, endPort, endPort - startPort + 1))
    else if vlanId < 0 || vlanId > MaxVlanId then Some(VlanError(vlanId))
    else None
  }

  /** Whether the L2-interface bucket strips the tag: only for untagged traffic. */
  function PopVlanTag(vlanId: int): int
  {
    if vlanId == 0 then 1 else 0
  }

  /** The L2-interface group that outputs on `outPort` in the internal VLAN. */
  function L2InterfaceGroupId(vlanId: int, outPort: int): GroupId
  {
    GroupId(L2InterfaceGroup, InternalVlan(vlanId), outPort)
  }

  /** The classification flow for frames tagged with the internal VLAN. */
  function TaggedVlanFlow(inPort: int, vlanId: int): FlowEntry
  {
    FlowEntry(VlanTable,
      VlanFlowEntry(TerminationMacTable, inPort, VidPresent(InternalVlan(vlanId)), VidPresentExactMask, 1, InternalVlan(vlanId)))
  }

  /** The classification flow for frames without a tag. */
  function UntaggedVlanFlow(inPort: int, vlanId: int): FlowEntry
  {
    FlowEntry(VlanTable,
      VlanFlowEntry(TerminationMacTable, inPort, VidNone, VidMaskBits(UntaggedVlanMask), 1, InternalVlan(vlanId)))
  }

  function L2InterfaceBucket(outPort: int, vlanId: int): GroupBucketEntry
  {
    GroupBucketEntry(L2InterfaceGroupId(vlanId, outPort), 0, outPort, PopVlanTag(vlanId))
  }

  /** The ACL flow that redirects everything entering `inPort` to the group of `outPort`. */
  function AclRedirectFlow(inPort: int, outPort: int, vlanId: int): FlowEntry
  {
    FlowEntry(AclPolicyTable, PolicyAclFlowEntry(inPort, InPortExactMask, L2InterfaceGroupId(vlanId, outPort)))
  }

  /** The calls `set_vlan` issues. */
  function VlanCalls(inPort: int, vlanId: int): seq<Call>
  {
    [FlowAdd(TaggedVlanFlow(inPort, vlanId))] + (if vlanId == 0 then [FlowAdd(UntaggedVlanFlow(inPort, vlanId))] else [])
  }

  /** The calls `set_acl` issues. */
  function AclCalls(inPort: int, outPort: int, vlanId: int): seq<Call>
  {
    [GroupAdd(GroupEntry(L2InterfaceGroupId(vlanId, outPort))),
     GroupBucketEntryAdd(L2InterfaceBucket(outPort, vlanId)),
     FlowAdd(AclRedirectFlow(inPort, outPort, vlanId))]
  }

  /** The calls one iteration of `main`'s loop issues for a pair. */
  function PairCalls(pair: PortPair, vlanId: int): seq<Call>
  {
    VlanCalls(pair.first, vlanId) + VlanCalls(pair.second, vlanId)
    + AclCalls(pair.first, pair.second, vlanId) + AclCalls(pair.second, pair.first, vlanId)
  }

  /** The pairs whose first port lies in [startPort, stop) at an even offset
      from startPort: those `main`'s loop has acted on when it reaches `stop`. */
  function PairsFrom(startPort: int, stop: int): seq<PortPair>
  {
    if stop <= startPort then []
    else seq((stop - startPort + 1) / 2, k => PortPair(startPort + 2 * k, startPort + 2 * k + 1))
  }

  /** The calls issued for `pairs`, one pair after the other. */
  function SnakeCalls(pairs: seq<PortPair>, vlanId: int): seq<Call>
  {
    if pairs == [] then []
    else SnakeCalls(pairs[..|pairs| - 1], vlanId) + PairCalls(pairs[|pairs| - 1], vlanId)
  }

  /** One step of the loop: the port `stop` starts a pair exactly when its
      offset from startPort is even. */
  lemma PairsFromStep(startPort: int, stop: int)
    requires startPort <= stop
    ensures (stop - startPort) % 2 == 0 ==> PairsFrom(startPort, stop + 1) == PairsFrom(startPort, stop) + [PortPair(stop, stop + 1)]
    ensures (stop - startPort) % 2 == 1 ==> PairsFrom(startPort, stop + 1) == PairsFrom(startPort, stop)
  {
  }

  /** Wiring one more pair appends that pair's calls. */
  lemma SnakeCallsSnoc(pairs: seq<PortPair>, pair: PortPair, vlanId: int)
    ensures SnakeCalls(pairs + [pair], vlanId) == SnakeCalls(pairs, vlanId) + PairCalls(pair, vlanId)
  {
  }

  /** Issuing a pair's four builder calls one after the other appends its calls. */
  lemma PairCallsAppended(before: seq<Call>, after: seq<Call>, pair: PortPair, vlanId: int)
    requires after == before + VlanCalls(pair.first, vlanId) + VlanCalls(pair.second, vlanId)
      + AclCalls(pair.first, pair.second, vlanId) + AclCalls(pair.second, pair.first, vlanId)
    ensures after == before + PairCalls(pair, vlanId)
  {
  }

  /** `set_vlan`: the tagged classification flow, and for untagged traffic
      also the tag-absent one. */
  method SetVlan(log: seq<Call>, inPort: int, vlanId: int) returns (log': seq<Call>)
    ensures log' == log + VlanCalls(inPort, vlanId)
  {
    log' := log + [FlowAdd(TaggedVlanFlow(inPort, vlanId))];
    if vlanId == 0 {
      log' := log' + [FlowAdd(UntaggedVlanFlow(inPort, vlanId))];
    }
  }

  /** `set_acl`: the L2-interface group of `outPort`, its bucket 0, then the
      ACL flow that sends `inPort`'s traffic to that group. */
  method SetAcl(log: seq<Call>, inPort: int, outPort: int, vlanId: int) returns (log': seq<Call>)
    ensures log' == log + AclCalls(inPort, outPort, vlanId)
  {
    var group := GroupEntry(L2InterfaceGroupId(vlanId, outPort));
    log' := log + [GroupAdd(group)];
    log' := log' + [GroupBucketEntryAdd(L2InterfaceBucket(outPort, vlanId))];
    log' := log' + [FlowAdd(AclRedirectFlow(inPort, outPort, vlanId))];
  }

  /** `main`: validate, then walk the range with the `skip` flag and wire
      every pair it starts. On an error nothing is installed. */
  method RunSnake(init: ClientInit, startPort: int, endPort: int, vlanId: int)
    returns (error: Option<Error>, log: seq<Call>)
    ensures error == Validate(init, startPort, endPort, vlanId)
    ensures error.Some? ==> log == []
    ensures error.None? ==> log == SnakeCalls(PairsFrom(startPort, endPort), vlanId)
  {
    log := [];
    error := Validate(init, startPort, endPort, vlanId);
    if error.Some? {
      return;
    }
    var skip := 0;
    for inPort := startPort to endPort
      invariant skip == (inPort - startPort) % 2
      invariant log == SnakeCalls(PairsFrom(startPort, inPort), vlanId)
    {
      ghost var done := PairsFrom(startPort, inPort);
      PairsFromStep(startPort, inPort);
      if skip == 0 {
        skip := 1;
      } else {
        skip := 0;
        continue;
      }
      ghost var before := log;
      log := SetVlan(log, inPort, vlanId);
      log := SetVlan(log, inPort + 1, vlanId);
      log := SetAcl(log, inPort, inPort + 1, vlanId);
      log := SetAcl(log, inPort + 1, inPort, vlanId);
      PairCallsAppended(before, log, PortPair(inPort, inPort + 1), vlanId);
      SnakeCallsSnoc(done, PortPair(inPort, inPort + 1), vlanId);
    }
  }
}
