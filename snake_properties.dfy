/** Properties of the snake plan: how ports are paired, and what the install
    log of a valid run contains, port by port. */
module SnakeProperties {
  import opened Ofdpa
  import opened Snake

  /** A range `main` accepts: non-empty, with an even number of ports. */
  predicate EvenRange(startPort: int, endPort: int)
  {
    startPort < endPort && (endPort - startPort + 1) % 2 == 0
  }

  /** Each pair is two adjacent ports, and the pairs are strictly increasing
      (so no two pairs share a port). */
  predicate Chain(pairs: seq<PortPair>)
  {
    && (forall k :: 0 <= k < |pairs| ==> pairs[k].second == pairs[k].first + 1)
    && (forall i, j :: 0 <= i < j < |pairs| ==> pairs[i].second < pairs[j].first)
  }

  predicate Covers(pair: PortPair, port: int)
  {
    pair.first == port || pair.second == port
  }

  /** The port a port of the range is patched to. */
  function Partner(startPort: int, port: int): int
  {
    if (port - startPort) % 2 == 0 then port + 1 else port - 1
  }

  /** The number of calls issued per pair. */
  function CallsPerPair(vlanId: int): nat
  {
    if vlanId == 0 then 10 else 8
  }

  /** Traffic entering `inPort` is sent by an ACL flow to a group whose
      bucket outputs on `outPort`. */
  predicate Forwards(t: seq<Call>, inPort: int, outPort: int)
  {
    exists i, j ::
      && 0 <= i < |t| && 0 <= j < |t|
      && t[i].FlowAdd? && t[i].flow.flowData.PolicyAclFlowEntry? && t[i].flow.flowData.inPort == inPort
      && t[j].GroupBucketEntryAdd? && t[j].bucket.groupId == t[i].flow.flowData.groupId
      && t[j].bucket.outputPort == outPort
  }

  /** The VLAN numbers a call writes into hardware match, action and group id fields. */
  function VlanFieldsOf(c: Call): seq<int>
  {
    match c
    case FlowAdd(FlowEntry(_, VlanFlowEntry(_, _, m, _, _, nv))) => (if m.VidPresent? then [m.vid] else []) + [nv]
    case FlowAdd(FlowEntry(_, PolicyAclFlowEntry(_, _, g))) => [g.vlanId]
    case GroupAdd(e) => [e.groupId.vlanId]
    case GroupBucketEntryAdd(b) => [b.groupId.vlanId]
  }

  // ---------------------------------------------------------------- pairing

  /** The pairs of an accepted range are (start, start+1), (start+2, start+3), ...
      up to (end-1, end): (end-start+1)/2 of them, contiguous, inside the range,
      and `end` never starts a pair. */
  lemma PairsPartitionRange(startPort: int, endPort: int)
    requires EvenRange(startPort, endPort)
    ensures var pairs := PairsFrom(startPort, endPort);
      && |pairs| == (endPort - startPort + 1) / 2 >= 1
      && Chain(pairs)
      && pairs[0].first == startPort && pairs[|pairs| - 1].second == endPort
      && (forall k :: 0 <= k < |pairs| - 1 ==> pairs[k].second + 1 == pairs[k + 1].first)
      && (forall k :: 0 <= k < |pairs| ==> startPort <= pairs[k].first && pairs[k].second <= endPort)
      && (forall k :: 0 <= k < |pairs| ==> pairs[k].first != endPort)
  {
  }

  /** Every port of an accepted range lies in exactly one pair, together with its partner. */
  lemma PairsCoverEachPortOnce(startPort: int, endPort: int, port: int)
    requires EvenRange(startPort, endPort) && startPort <= port <= endPort
    ensures var pairs := PairsFrom(startPort, endPort);
      && (exists k :: 0 <= k < |pairs| && Covers(pairs[k], port))
      && (forall k :: 0 <= k < |pairs| && Covers(pairs[k], port) ==>
            k == (port - startPort) / 2 && Covers(pairs[k], Partner(startPort, port)))
  {
    var pairs := PairsFrom(startPort, endPort);
    var k := (port - startPort) / 2;
    assert 0 <= k < |pairs| && Covers(pairs[k], port);
  }

  /** The ports the loop acts on (those that start a pair) are exactly
      start, start+2, ..., end-1. */
  lemma PairFirstsAreLoopPorts(startPort: int, endPort: int, port: int)
    requires EvenRange(startPort, endPort)
    ensures var pairs := PairsFrom(startPort, endPort);
      (exists k :: 0 <= k < |pairs| && pairs[k].first == port) <==>
      startPort <= port < endPort && (port - startPort) % 2 == 0
  {
    var pairs := PairsFrom(startPort, endPort);
    if startPort <= port < endPort && (port - startPort) % 2 == 0 {
      var k := (port - startPort) / 2;
      assert 0 <= k < |pairs| && pairs[k].first == port;
    }
  }

  /** Partners are adjacent ports of the range, and patching is symmetric. */
  lemma PartnerIsAdjacentAndSymmetric(startPort: int, endPort: int, port: int)
    requires EvenRange(startPort, endPort) && startPort <= port <= endPort
    ensures startPort <= Partner(startPort, port) <= endPort
    ensures Partner(startPort, port) == port + 1 || Partner(startPort, port) == port - 1
    ensures Partner(startPort, Partner(startPort, port)) == port
  {
  }

  /** The two ports of the k-th pair are each other's partners. */
  lemma PartnersInPair(startPort: int, k: int)
    ensures Partner(startPort, startPort + 2 * k) == startPort + 2 * k + 1
    ensures Partner(startPort, startPort + 2 * k + 1) == startPort + 2 * k
  {
  }

  /** The default run (ports 1 to 48, VLAN 10) is accepted and wires 24 pairs. */
  lemma DefaultRun()
    ensures Validate(InitOk, 1, 48, 10) == None
    ensures |PairsFrom(1, 48)| == 24 && PairsFrom(1, 48)[23] == PortPair(47, 48)
    ensures |SnakeCalls(PairsFrom(1, 48), 10)| == 24 * 8
  {
    SnakeCallsLength(PairsFrom(1, 48), 10);
  }

  /** Small runs: accepted ones pair as shown; the others fail with the first check they break. */
  lemma SmallRuns()
    ensures PairsFrom(1, 2) == [PortPair(1, 2)]
    ensures PairsFrom(1, 4) == [PortPair(1, 2), PortPair(3, 4)]
    ensures Validate(InitOk, 5, 4, 10) == Some(RangeError(5, 4))
    ensures Validate(InitOk, 1, 3, 10) == Some(PortCountError(1, 3, 3))
    ensures Validate(InitOk, 1, 48, 4096) == Some(VlanError(4096))
    ensures Validate(InitFailed(7), 5, 4, 4096) == Some(InitError(7))
  {
  }

  // ------------------------------------------------------------ the builders

  /** `set_vlan` installs one VLAN-table flow for tagged traffic, and a second
      one for untagged traffic exactly when the VLAN is 0; all of them match the
      port, go to the termination-MAC table and rewrite to the internal VLAN,
      and no two share a key. */
  lemma SetVlanFlows(inPort: int, vlanId: int)
    ensures var calls := VlanCalls(inPort, vlanId);
      && |calls| == (if vlanId == 0 then 2 else 1)
      && calls[0] == FlowAdd(TaggedVlanFlow(inPort, vlanId))
      && (vlanId == 0 ==> calls[1] == FlowAdd(UntaggedVlanFlow(inPort, vlanId)))
      && calls[0].flow.flowData.vlanId == VidPresent(InternalVlan(vlanId))
      && calls[0].flow.flowData.vlanIdMask == VidPresentExactMask
      && (vlanId == 0 ==> calls[1].flow.flowData.vlanId == VidNone)
      && (vlanId == 0 ==> calls[1].flow.flowData.vlanIdMask == VidMaskBits(UntaggedVlanMask))
      && DistinctKeys(calls)
      && forall c :: c in calls ==>
           && c.FlowAdd? && c.flow.tableId == VlanTable && c.flow.flowData.VlanFlowEntry?
           && c.flow.flowData.inPort == inPort && c.flow.flowData.gotoTableId == TerminationMacTable
           && c.flow.flowData.setVlanIdAction == 1 && c.flow.flowData.newVlanId == InternalVlan(vlanId)
  {
  }

  /** `set_acl` adds the group, then its bucket 0, then the ACL flow; all three
      carry the same group id, which depends on the internal VLAN and the output
      port only; the bucket outputs on `outPort` and pops the tag exactly for
      untagged traffic; and nothing refers to an entry not yet added. */
  lemma SetAclCalls(inPort: int, outPort: int, vlanId: int, otherInPort: int)
    ensures var calls := AclCalls(inPort, outPort, vlanId);
      var g := GroupId(L2InterfaceGroup, InternalVlan(vlanId), outPort);
      && |calls| == 3
      && calls[0] == GroupAdd(GroupEntry(g))
      && calls[1].GroupBucketEntryAdd? && calls[1].bucket.groupId == g && calls[1].bucket.bucketIndex == 0
      && calls[1].bucket.outputPort == outPort && (calls[1].bucket.popVlanTag == 1 <==> vlanId == 0)
      && calls[2] == FlowAdd(FlowEntry(AclPolicyTable, PolicyAclFlowEntry(inPort, InPortExactMask, g)))
      && AclCalls(otherInPort, outPort, vlanId)[..2] == calls[..2]
      && ReferencesResolved(calls)
  {
  }

  /** Two group ids coincide exactly when their internal VLANs and output ports do. */
  lemma GroupIdKey(vlanA: int, portA: int, vlanB: int, portB: int)
    ensures L2InterfaceGroupId(vlanA, portA) == L2InterfaceGroupId(vlanB, portB) <==>
      InternalVlan(vlanA) == InternalVlan(vlanB) && portA == portB
  {
  }

  // ------------------------------------------------------- the whole log

  /** A run issues CallsPerPair calls per pair. */
  lemma {:induction false} SnakeCallsLength(pairs: seq<PortPair>, vlanId: int)
    ensures |SnakeCalls(pairs, vlanId)| == |pairs| * CallsPerPair(vlanId)
  {
    if pairs != [] {
      var n := |pairs| - 1;
      SnakeCallsLength(pairs[..n], vlanId);
      if vlanId == 0 {
        assert |SnakeCalls(pairs, vlanId)| == n * 10 + 10;
      } else {
        assert |SnakeCalls(pairs, vlanId)| == n * 8 + 8;
      }
    }
  }

  /** A call is in the log exactly when it is among some pair's calls. */
  lemma {:induction false} SnakeCallsMember(pairs: seq<PortPair>, vlanId: int, c: Call)
    ensures c in SnakeCalls(pairs, vlanId) <==> exists k :: 0 <= k < |pairs| && c in PairCalls(pairs[k], vlanId)
  {
    if pairs != [] {
      var n := |pairs| - 1;
      var init := pairs[..n];
      SnakeCallsMember(init, vlanId, c);
      if c in SnakeCalls(init, vlanId) {
        var k :| 0 <= k < |init| && c in PairCalls(init[k], vlanId);
        assert pairs[k] == init[k];
      } else if c !in PairCalls(pairs[n], vlanId) {
        forall k | 0 <= k < |pairs|
          ensures c !in PairCalls(pairs[k], vlanId)
        {
          if k < n {
            assert pairs[k] == init[k];
          }
        }
      }
    }
  }

  /** Every key a pair's calls install is about one of its two ports. */
  lemma PairCallsKeyPorts(pair: PortPair, vlanId: int, c: Call)
    requires c in PairCalls(pair, vlanId)
    ensures KeyPort(KeyOf(c)) == pair.first || KeyPort(KeyOf(c)) == pair.second
  {
  }

  /** Two key-distinct logs with no key in common concatenate to a key-distinct log. */
  lemma DistinctKeysConcat(a: seq<Call>, b: seq<Call>)
    requires DistinctKeys(a) && DistinctKeys(b)
    requires forall i, j :: 0 <= i < |a| && 0 <= j < |b| ==> KeyOf(a[i]) != KeyOf(b[j])
    ensures DistinctKeys(a + b)
  {
  }

  /** The calls for one pair of distinct ports never repeat a key. */
  lemma PairCallsDistinctKeys(pair: PortPair, vlanId: int)
    requires pair.first != pair.second
    ensures DistinctKeys(PairCalls(pair, vlanId))
  {
  }

  /** No two calls of a run install under the same key: the switch is never
      asked to add an entry it already has. */
  lemma {:induction false} SnakeCallsDistinctKeys(pairs: seq<PortPair>, vlanId: int)
    requires Chain(pairs)
    ensures DistinctKeys(SnakeCalls(pairs, vlanId))
  {
    if pairs != [] {
      var n := |pairs| - 1;
      var init, last := pairs[..n], pairs[n];
      assert Chain(init);
      SnakeCallsDistinctKeys(init, vlanId);
      PairCallsDistinctKeys(last, vlanId);
      var a, b := SnakeCalls(init, vlanId), PairCalls(last, vlanId);
      forall i, j | 0 <= i < |a| && 0 <= j < |b|
        ensures KeyOf(a[i]) != KeyOf(b[j])
      {
        SnakeCallsMember(init, vlanId, a[i]);
        var k :| 0 <= k < |init| && a[i] in PairCalls(init[k], vlanId);
        assert init[k] == pairs[k];
        PairCallsKeyPorts(init[k], vlanId, a[i]);
        PairCallsKeyPorts(last, vlanId, b[j]);
      }
      DistinctKeysConcat(a, b);
    }
  }

  /** Earlier calls in front of a log keep its references resolved. */
  lemma HasEntriesExtend(pre: seq<Call>, before: seq<Call>, c: Call)
    requires ResolvedAfter(before, c)
    ensures ResolvedAfter(pre + before, c)
  {
    forall g | HasGroup(before, g)
      ensures HasGroup(pre + before, g)
    {
      var i :| 0 <= i < |before| && before[i] == GroupAdd(GroupEntry(g));
      assert (pre + before)[|pre| + i] == before[i];
    }
    forall g | HasBucket(before, g)
      ensures HasBucket(pre + before, g)
    {
      var i :| 0 <= i < |before| && before[i].GroupBucketEntryAdd? && before[i].bucket.groupId == g;
      assert (pre + before)[|pre| + i] == before[i];
    }
  }

  /** Resolved logs concatenate to a resolved log. */
  lemma ResolvedConcat(a: seq<Call>, b: seq<Call>)
    requires ReferencesResolved(a) && ReferencesResolved(b)
    ensures ReferencesResolved(a + b)
  {
    var ab := a + b;
    forall j | 0 <= j < |ab|
      ensures ResolvedAfter(ab[..j], ab[j])
    {
      if j < |a| {
        assert ab[..j] == a[..j] && ab[j] == a[j];
      } else {
        var k := j - |a|;
        assert ab[..j] == a + b[..k] && ab[j] == b[k];
        assert ResolvedAfter(b[..k], b[k]);
        HasEntriesExtend(a, b[..k], b[k]);
      }
    }
  }

  lemma PairCallsResolved(pair: PortPair, vlanId: int)
    ensures ReferencesResolved(PairCalls(pair, vlanId))
  {
    var p, q := pair.first, pair.second;
    var v1, v2 := VlanCalls(p, vlanId), VlanCalls(q, vlanId);
    SetAclCalls(p, q, vlanId, p);
    SetAclCalls(q, p, vlanId, q);
    assert ReferencesResolved(v1) && ReferencesResolved(v2);
    ResolvedConcat(v1, v2);
    ResolvedConcat(v1 + v2, AclCalls(p, q, vlanId));
    ResolvedConcat(v1 + v2 + AclCalls(p, q, vlanId), AclCalls(q, p, vlanId));
  }

  /** In a run every bucket follows its group, and every ACL flow follows the
      group and bucket it sends traffic to: no reference ever dangles. */
  lemma {:induction false} SnakeCallsResolved(pairs: seq<PortPair>, vlanId: int)
    ensures ReferencesResolved(SnakeCalls(pairs, vlanId))
  {
    if pairs != [] {
      var n := |pairs| - 1;
      SnakeCallsResolved(pairs[..n], vlanId);
      PairCallsResolved(pairs[n], vlanId);
      ResolvedConcat(SnakeCalls(pairs[..n], vlanId), PairCalls(pairs[n], vlanId));
    }
  }

  /** The internal-VLAN and pop-tag facts for the calls of one pair. */
  lemma PairCallsUseInternalVlan(pair: PortPair, vlanId: int, c: Call)
    requires c in PairCalls(pair, vlanId)
    ensures forall x :: x in VlanFieldsOf(c) ==> x == InternalVlan(vlanId) && x != 0
    ensures c.GroupBucketEntryAdd? ==> (c.bucket.popVlanTag == 1 <==> vlanId == 0) && 0 <= c.bucket.popVlanTag <= 1
  {
  }

  /** Every VLAN number a run writes into the hardware is the internal VLAN
      (never 0), and every bucket pops the tag exactly for untagged traffic. */
  lemma SnakeCallsUseInternalVlan(pairs: seq<PortPair>, vlanId: int)
    ensures forall c :: c in SnakeCalls(pairs, vlanId) ==>
      && (forall x :: x in VlanFieldsOf(c) ==> x == InternalVlan(vlanId) && x != 0)
      && (c.GroupBucketEntryAdd? ==> (c.bucket.popVlanTag == 1 <==> vlanId == 0) && 0 <= c.bucket.popVlanTag <= 1)
  {
    forall c | c in SnakeCalls(pairs, vlanId)
      ensures forall x :: x in VlanFieldsOf(c) ==> x == InternalVlan(vlanId) && x != 0
      ensures c.GroupBucketEntryAdd? ==> (c.bucket.popVlanTag == 1 <==> vlanId == 0) && 0 <= c.bucket.popVlanTag <= 1
    {
      SnakeCallsMember(pairs, vlanId, c);
      var k :| 0 <= k < |pairs| && c in PairCalls(pairs[k], vlanId);
      PairCallsUseInternalVlan(pairs[k], vlanId, c);
    }
  }

  /** For untagged traffic (VLAN 0) the whole pipeline runs in VLAN 1: every
      VLAN number the log writes is 1, and every bucket pops the tag. */
  lemma UntaggedRunUsesVlanOne(pairs: seq<PortPair>)
    ensures forall c :: c in SnakeCalls(pairs, 0) ==>
      && (forall x :: x in VlanFieldsOf(c) ==> x == 1)
      && (c.GroupBucketEntryAdd? ==> c.bucket.popVlanTag == 1)
  {
    SnakeCallsUseInternalVlan(pairs, 0);
  }

  // -------------------------------------------------- port by port, for a run

  /** The VLAN flows a run installs on a port are exactly those of `set_vlan`
      for that port, and only ports of the range get any. */
  lemma RunVlanFlowsOnPort(startPort: int, endPort: int, vlanId: int, port: int, f: FlowEntry)
    requires EvenRange(startPort, endPort)
    ensures FlowAdd(f) in SnakeCalls(PairsFrom(startPort, endPort), vlanId)
            && f.flowData.VlanFlowEntry? && f.flowData.inPort == port
        <==> startPort <= port <= endPort && FlowAdd(f) in VlanCalls(port, vlanId)
  {
    var pairs := PairsFrom(startPort, endPort);
    PairsPartitionRange(startPort, endPort);
    SnakeCallsMember(pairs, vlanId, FlowAdd(f));
    if startPort <= port <= endPort && FlowAdd(f) in VlanCalls(port, vlanId) {
      PairsCoverEachPortOnce(startPort, endPort, port);
      var k :| 0 <= k < |pairs| && Covers(pairs[k], port);
      assert FlowAdd(f) in PairCalls(pairs[k], vlanId);
    }
  }

  /** The only ACL flows of a pair are its two redirects. */
  lemma PairCallsAclFlow(pair: PortPair, vlanId: int, f: FlowEntry)
    requires FlowAdd(f) in PairCalls(pair, vlanId) && f.flowData.PolicyAclFlowEntry?
    ensures f == AclRedirectFlow(pair.first, pair.second, vlanId) || f == AclRedirectFlow(pair.second, pair.first, vlanId)
  {
  }

  /** A run installs one ACL flow per port of the range: it matches the port
      exactly and sends its traffic to the partner's group. */
  lemma RunAclFlowOnPort(startPort: int, endPort: int, vlanId: int, port: int, f: FlowEntry)
    requires EvenRange(startPort, endPort)
    ensures FlowAdd(f) in SnakeCalls(PairsFrom(startPort, endPort), vlanId)
            && f.flowData.PolicyAclFlowEntry? && f.flowData.inPort == port
        <==> startPort <= port <= endPort && f == AclRedirectFlow(port, Partner(startPort, port), vlanId)
  {
    var pairs := PairsFrom(startPort, endPort);
    PairsPartitionRange(startPort, endPort);
    SnakeCallsMember(pairs, vlanId, FlowAdd(f));
    if FlowAdd(f) in SnakeCalls(pairs, vlanId) && f.flowData.PolicyAclFlowEntry? && f.flowData.inPort == port {
      var k :| 0 <= k < |pairs| && FlowAdd(f) in PairCalls(pairs[k], vlanId);
      var a, b := startPort + 2 * k, startPort + 2 * k + 1;
      assert pairs[k] == PortPair(a, b);
      PartnersInPair(startPort, k);
      PairCallsAclFlow(pairs[k], vlanId, f);
    }
    if startPort <= port <= endPort && f == AclRedirectFlow(port, Partner(startPort, port), vlanId) {
      var k := (port - startPort) / 2;
      var a, b := startPort + 2 * k, startPort + 2 * k + 1;
      assert pairs[k] == PortPair(a, b);
      PartnersInPair(startPort, k);
      assert (port == a && Partner(startPort, port) == b) || (port == b && Partner(startPort, port) == a);
      var calls := PairCalls(pairs[k], vlanId);
      assert FlowAdd(AclRedirectFlow(a, b, vlanId)) in AclCalls(a, b, vlanId);
      assert FlowAdd(AclRedirectFlow(b, a, vlanId)) in AclCalls(b, a, vlanId);
      assert FlowAdd(f) in calls;
    }
  }

  /** A run adds one L2-interface group per port of the range, the one that
      outputs on that port. */
  lemma RunGroupOnPort(startPort: int, endPort: int, vlanId: int, port: int, e: GroupEntry)
    requires EvenRange(startPort, endPort)
    ensures GroupAdd(e) in SnakeCalls(PairsFrom(startPort, endPort), vlanId) && e.groupId.portId == port
        <==> startPort <= port <= endPort && e == GroupEntry(L2InterfaceGroupId(vlanId, port))
  {
    var pairs := PairsFrom(startPort, endPort);
    PairsPartitionRange(startPort, endPort);
    SnakeCallsMember(pairs, vlanId, GroupAdd(e));
    if startPort <= port <= endPort && e == GroupEntry(L2InterfaceGroupId(vlanId, port)) {
      PairsCoverEachPortOnce(startPort, endPort, port);
      var k :| 0 <= k < |pairs| && Covers(pairs[k], port);
      assert GroupAdd(e) in PairCalls(pairs[k], vlanId);
    }
  }

  /** A run adds one bucket per port of the range, to that port's group. */
  lemma RunBucketOnPort(startPort: int, endPort: int, vlanId: int, port: int, b: GroupBucketEntry)
    requires EvenRange(startPort, endPort)
    ensures GroupBucketEntryAdd(b) in SnakeCalls(PairsFrom(startPort, endPort), vlanId) && b.groupId.portId == port
        <==> startPort <= port <= endPort && b == L2InterfaceBucket(port, vlanId)
  {
    var pairs := PairsFrom(startPort, endPort);
    PairsPartitionRange(startPort, endPort);
    SnakeCallsMember(pairs, vlanId, GroupBucketEntryAdd(b));
    if startPort <= port <= endPort && b == L2InterfaceBucket(port, vlanId) {
      PairsCoverEachPortOnce(startPort, endPort, port);
      var k :| 0 <= k < |pairs| && Covers(pairs[k], port);
      assert GroupBucketEntryAdd(b) in PairCalls(pairs[k], vlanId);
    }
  }

  /** Each classification flow of a port occurs exactly once in a run's log:
      so a port gets one VLAN flow for a tagged VLAN, two for untagged traffic. */
  lemma RunVlanFlowsOnceEach(startPort: int, endPort: int, vlanId: int, port: int, c: Call)
    requires EvenRange(startPort, endPort) && startPort <= port <= endPort
    requires c in VlanCalls(port, vlanId)
    ensures var t := SnakeCalls(PairsFrom(startPort, endPort), vlanId);
      && (exists i :: 0 <= i < |t| && t[i] == c)
      && (forall i, j :: 0 <= i < |t| && 0 <= j < |t| && t[i] == c && t[j] == c ==> i == j)
  {
    var pairs := PairsFrom(startPort, endPort);
    var t := SnakeCalls(pairs, vlanId);
    PairsPartitionRange(startPort, endPort);
    SnakeCallsDistinctKeys(pairs, vlanId);
    RunVlanFlowsOnPort(startPort, endPort, vlanId, port, c.flow);
    assert c in t;
  }

  /** A port of the range has only one ACL flow in a run's log. */
  lemma RunAclFlowUnique(startPort: int, endPort: int, vlanId: int, i: int, j: int)
    requires EvenRange(startPort, endPort)
    requires var t := SnakeCalls(PairsFrom(startPort, endPort), vlanId);
      && 0 <= i < |t| && 0 <= j < |t|
      && t[i].FlowAdd? && t[i].flow.flowData.PolicyAclFlowEntry?
      && t[j].FlowAdd? && t[j].flow.flowData.PolicyAclFlowEntry?
      && t[i].flow.flowData.inPort == t[j].flow.flowData.inPort
    ensures i == j
  {
    var pairs := PairsFrom(startPort, endPort);
    PairsPartitionRange(startPort, endPort);
    SnakeCallsDistinctKeys(pairs, vlanId);
    var t := SnakeCalls(pairs, vlanId);
    assert KeyOf(t[i]) == KeyOf(t[j]);
  }

  /** Every pair is wired in both directions: each port of the range forwards
      to its partner, and the partner back to it. */
  lemma RunForwardsBothWays(startPort: int, endPort: int, vlanId: int, port: int)
    requires EvenRange(startPort, endPort) && startPort <= port <= endPort
    ensures var t := SnakeCalls(PairsFrom(startPort, endPort), vlanId);
      Forwards(t, port, Partner(startPort, port)) && Forwards(t, Partner(startPort, port), port)
  {
    var t := SnakeCalls(PairsFrom(startPort, endPort), vlanId);
    var other := Partner(startPort, port);
    PartnerIsAdjacentAndSymmetric(startPort, endPort, port);
    ForwardsToPartner(startPort, endPort, vlanId, port);
    ForwardsToPartner(startPort, endPort, vlanId, other);
  }

  /** One direction of the patch: a port forwards to its partner. */
  lemma ForwardsToPartner(startPort: int, endPort: int, vlanId: int, port: int)
    requires EvenRange(startPort, endPort) && startPort <= port <= endPort
    ensures Forwards(SnakeCalls(PairsFrom(startPort, endPort), vlanId), port, Partner(startPort, port))
  {
    var t := SnakeCalls(PairsFrom(startPort, endPort), vlanId);
    var other := Partner(startPort, port);
    PartnerIsAdjacentAndSymmetric(startPort, endPort, port);
    var f := AclRedirectFlow(port, other, vlanId);
    var b := L2InterfaceBucket(other, vlanId);
    RunAclFlowOnPort(startPort, endPort, vlanId, port, f);
    RunBucketOnPort(startPort, endPort, vlanId, other, b);
    var i :| 0 <= i < |t| && t[i] == FlowAdd(f);
    var j :| 0 <= j < |t| && t[j] == GroupBucketEntryAdd(b);
    assert t[j].bucket.groupId == t[i].flow.flowData.groupId;
  }
}
