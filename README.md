# OF-DPA snake: a verified model of the port-pairing planner

`ofdpa_snake.py` configures an OF-DPA switch as a virtual patch panel for a
snake test. Given a port range `[start_port, end_port]` and a VLAN id, it first
checks the request. It then pairs adjacent ports, (start, start+1), (start+2,
start+3) and so on. For each pair it installs the pipeline entries that forward
traffic entering one port out of the other. These are:

- VLAN-table classification flows. There is one for tagged traffic and, when
  the VLAN is 0 ("untagged"), a second for frames without a tag.
- One L2-interface group per output port, with its bucket 0.
- One ACL-policy flow per input port, redirecting to the partner's group.

The model treats the switch as an **install log**. Each `ofdpaFlowAdd`,
`ofdpaGroupAdd` and `ofdpaGroupBucketEntryAdd` call appends one `Call` record.
A run is then either a validation error with an empty log, or a log of calls
in the order the script issues them.

Files:

- `ofdpa.dfy` (module `Ofdpa`): the vendor binding's records. Every constant
  is a symbolic constructor: tables, `OFDPA_VID_PRESENT | vid`,
  `OFDPA_VID_NONE`, the masks and the L2-interface group type. The group id is
  the triple it is built from. The module also defines two properties of a
  call sequence:
  - each entry's key (the thing a switch would reject a duplicate of) is used
    only once;
  - every call refers only to earlier calls, so a bucket follows its group and
    an ACL flow follows the group and bucket it uses.
- `snake.dfy` (module `Snake`): the script itself.
  - `Validate` is the three checks of `main`, behind the client-initialisation
    check.
  - `InternalVlan` is the `1 if vlan_id == 0 else vlan_id` mapping.
  - `SetVlan` and `SetAcl` are the two entry builders. They are methods that
    append to the log.
  - `RunSnake` is `main`: a `for` loop over `range(start_port, end_port)` that
    toggles the `skip` flag.
  - The spec functions `VlanCalls`, `AclCalls`, `PairCalls`, `PairsFrom` and
    `SnakeCalls` describe the same calls declaratively. The methods are proved
    equal to them.
- `snake_properties.dfy` (module `SnakeProperties`): lemmas about those
  functions. They cover pairing and coverage, and the log of a run port by
  port: flows per port, both directions, the internal VLAN, the pop-tag
  policy, distinct keys and resolved references.

Points worth knowing about `ofdpa_snake.py`:

- The parity check rejects when `(end_port - start_port) % 2 == 0`. Accepted
  ranges therefore have an even number of ports, `end_port - start_port + 1`,
  and give `(end_port - start_port + 1) / 2` pairs: 1..3 is rejected, and
  1..48 gives 24 pairs.
- The tagged classification flow matches the internal VLAN. For VLAN 0 that
  is VLAN 1, so the whole pipeline of an untagged run works in VLAN 1.
- The code never checks the return codes of the installs, so no run halts
  part-way.
- The group is added before its bucket, although a comment in `set_acl` says
  the bucket must come first.

## Model

| member | source | states |
|---|---|---|
| `Snake.Validate` | ofdpa_snake.py:34-43 | No error exactly when the client is up, start < end, the inclusive port count is even and 0 <= vlan <= 4095. The checks run in the order init, range, port count, VLAN, and each error is raised exactly when its check is the first to fail. The reported count is end-start+1, which is odd and at least 3. |
| `Snake.InternalVlan` | ofdpa_snake.py:64-67 | VLAN 0 (untagged) is mapped to VLAN 1, and every other VLAN to itself. The internal VLAN is therefore never 0, and lies in 1..4095 for a valid VLAN. |
| `Snake.PairsFromStep` | ofdpa_snake.py:46-52 | When the loop reaches a port at an even offset from start, that port opens a new pair with the next port. At an odd offset the set of pairs does not change. |
| `Snake.SetVlan` | ofdpa_snake.py:58-82 | The log afterwards is the old log followed by `set_vlan`'s flows for that port and VLAN, in order. |
| `Snake.SetAcl` | ofdpa_snake.py:84-111 | The log afterwards is the old log followed by the group add, bucket add and ACL flow add of `set_acl`, in that order. |
| `Snake.RunSnake` | ofdpa_snake.py:32-56 | The error is that of `Validate`. On an error the log is empty. Otherwise the log is, pair after pair in increasing order, set_vlan(p), set_vlan(p+1), set_acl(p, p+1), set_acl(p+1, p) for the pairs of the range. |
| `Snake.SnakeCallsSnoc` | ofdpa_snake.py:47-56 | Wiring one more pair appends exactly that pair's calls to the log. |
| `SnakeProperties.PairsPartitionRange` | ofdpa_snake.py:46-56 | An accepted range gives (end-start+1)/2 pairs of adjacent ports. They are strictly increasing and contiguous, go from start to end, stay inside the range, and `end` never starts a pair. |
| `SnakeProperties.PairsCoverEachPortOnce` | ofdpa_snake.py:46-56 | Every port of an accepted range lies in exactly one pair, the ((port-start)/2)-th, together with its partner. |
| `SnakeProperties.PairFirstsAreLoopPorts` | ofdpa_snake.py:46-52 | The ports that start a pair are exactly start, start+2, ..., end-1. |
| `SnakeProperties.PartnerIsAdjacentAndSymmetric` | ofdpa_snake.py:53-56 | A port's partner is in the range, differs from it by one, and has that port as its own partner. |
| `SnakeProperties.PartnersInPair` | ofdpa_snake.py:53-56 | The two ports of the k-th pair are each other's partners. |
| `SnakeProperties.DefaultRun` | ofdpa_snake.py:32-56 | The default run (1, 48, 10) is accepted. It wires 24 pairs, the last being (47, 48), and issues 192 calls. |
| `SnakeProperties.SmallRuns` | ofdpa_snake.py:38-56 | 1..2 and 1..4 pair as (1,2) and (1,2),(3,4). 5..4 fails the range check, 1..3 fails the port-count check, VLAN 4096 fails the VLAN check, and a failed init comes before every other check. |
| `SnakeProperties.SetVlanFlows` | ofdpa_snake.py:58-82 | `set_vlan` installs two VLAN-table flows if the VLAN is 0 and one otherwise. The first matches the tag present with the internal VLAN under the present-and-exact mask; the second matches no tag under the literal mask 0x1fff. All of them match the port, go to the termination-MAC table, set the VLAN action and rewrite to the internal VLAN, and no two share a key. |
| `SnakeProperties.SetAclCalls` | ofdpa_snake.py:84-111 | `set_acl` adds the group, then bucket 0, then the ACL flow. All three carry one group id, built from the L2-interface type, the internal VLAN and the output port, and independent of the input port. The bucket outputs on the output port and pops the tag exactly when the VLAN is 0. Every reference is resolved. |
| `SnakeProperties.GroupIdKey` | ofdpa_snake.py:90-94 | Two group ids are equal exactly when their internal VLANs and output ports are equal. |
| `SnakeProperties.SnakeCallsLength` | ofdpa_snake.py:47-56 | A run issues 10 calls per pair when the VLAN is 0 and 8 otherwise. |
| `SnakeProperties.SnakeCallsMember` | ofdpa_snake.py:47-56 | A call is in the log exactly when it is among the calls of some pair. |
| `SnakeProperties.PairCallsDistinctKeys` | ofdpa_snake.py:53-56 | The calls for one pair of distinct ports never repeat an entry key. |
| `SnakeProperties.SnakeCallsDistinctKeys` | ofdpa_snake.py:47-111 | For strictly increasing pairs of adjacent ports, no two calls of the log install under the same key. |
| `SnakeProperties.PairCallsResolved` | ofdpa_snake.py:53-56 | Within one pair's calls, every bucket follows its group and every ACL flow follows its group and bucket. |
| `SnakeProperties.SnakeCallsResolved` | ofdpa_snake.py:84-111 | Throughout the log, every bucket follows its group and every ACL flow follows its group and bucket: no dangling reference. |
| `SnakeProperties.SnakeCallsUseInternalVlan` | ofdpa_snake.py:64-98 | Every VLAN number written into a match, action or group id in the log is the internal VLAN, never 0. Every bucket pops the tag (1) exactly when the VLAN is 0 and otherwise writes 0. |
| `SnakeProperties.UntaggedRunUsesVlanOne` | ofdpa_snake.py:64-98 | In a run for VLAN 0, every VLAN number written into a match, action or group id is 1, and every bucket pops the tag. |
| `SnakeProperties.RunVlanFlowsOnPort` | ofdpa_snake.py:53-82 | A VLAN flow on a port is in the log exactly when the port is in the range and the flow is one of `set_vlan`'s flows for that port. |
| `SnakeProperties.RunVlanFlowsOnceEach` | ofdpa_snake.py:58-82 | Each of a port's classification flows occurs exactly once in the log. A port therefore gets one VLAN flow for a tagged VLAN and two for untagged traffic. |
| `SnakeProperties.RunAclFlowOnPort` | ofdpa_snake.py:53-111 | An ACL flow on a port is in the log exactly when the port is in the range and the flow is the exact-match redirect to the partner's group. |
| `SnakeProperties.RunAclFlowUnique` | ofdpa_snake.py:104-111 | No port has two ACL flows in the log. |
| `SnakeProperties.RunGroupOnPort` | ofdpa_snake.py:84-102 | A group with a given output port is in the log exactly when the port is in the range and the group is the L2-interface group of the internal VLAN and that port. |
| `SnakeProperties.RunBucketOnPort` | ofdpa_snake.py:94-102 | A bucket for a given port's group is in the log exactly when the port is in the range and the bucket is bucket 0, outputting on that port with the VLAN's pop policy. |
| `SnakeProperties.RunForwardsBothWays` | ofdpa_snake.py:55-56 | Every port of the range forwards to its partner, and the partner forwards back: an ACL flow on the input port names a group whose bucket outputs on the other port. |

## Left out

- Client initialisation (`ofdpaClientInitialize`) is an RPC. It is modelled only as a `ClientInit` parameter whose failure is reported before any other check.
- The RPC transport and the switch agent are not modelled. The "switch" is the value of the install log.
- The return codes of `ofdpaFlowAdd`, `ofdpaGroupAdd` and `ofdpaGroupBucketEntryAdd` are ignored by the code. The model therefore has no install failures, no halting and no rollback.
- The numeric values of the binding's constants and the bit layout of the group id are not modelled. `OFDPA_python` is not part of this model. The group id is the triple (type, internal VLAN, output port) it is built from. This amounts to assuming the encoding sends distinct triples to distinct ids.
- The hardware meaning of the literal mask `0x1fff` on the tag-absent flow is not modelled. It is kept as a literal, and its correctness is an open question in the source.
- The symbolic constants carry assumptions of their own. `VidPresent(v)` is taken to differ from `VidNone`, and the distinct-keys lemmas rely on that. `VidPresentExactMask` and `VidMaskBits(0x1fff)` are distinct constructors, although in hardware `OFDPA_VID_PRESENT | OFDPA_VID_EXACT_MASK` may well equal 0x1fff. No proved result depends on the two masks differing, since the two flows' match values already differ.
- Port numbers and VLAN ids are unbounded integers. The binding stores them in fixed-width fields, and truncation to those widths is not modelled.
- The fields that `ofdpaFlowEntryInit` sets by default are not modelled. Only the fields the script assigns are.
- The exception messages are not modelled. Each error carries the numbers its message reports.
- The `__main__` entry point and its defaults appear only as the `DefaultRun` lemma.
