# hhfab: hydration, connectivity matrix, virtual lab and release-test runner

`hhfab` prepares a Hedgehog network fabric. This project models the parts of it that allocate, check and decide,
and proves what they keep:

* **Hydration** (`pkg/hhfab/hydrate.go`): an allocator hands out management addresses, dummy /31s, protocol and VTEP
  addresses, leaf ASNs and point-to-point pairs, and writes them into the API objects; a separately written checker
  reads the objects back and answers `Nothing`, `Partial`, `Full` or an error; a mode machine runs both.
* **Connectivity matrix** (`matrix.go`, `endpoints.go`, `rt_nat_tests.go`, `rt_nat_external_tests.go`): the oracle of
  the connectivity tests, the overlays that rewrite it, the reconciliation of its endpoints, its validation, the four
  phases that turn it into probes, and the buffered error channel that those probes share.
* **Virtual lab** (`vlabbuilder.go`, `vlabconfig.go`): the topology generator with its 8-bit port counters, the GPU rail
  addressing, and the translation of links into network cards, sockets, PCI slots and taps.
* **Release-test suites** (`rt_base.go`): selection, setup, tests, reverts, fail-fast and counters.

## How it is laid out

| files | contents |
|---|---|
| `Net`, `Store`, `Sorting`, `Ranking`, `Grid` | IPv4 arithmetic with overflow; API objects as lists with get-by-name and update; sorting by rank and name; positions in a sorted list; what double loops collect |
| `WiringModel`, `Allocator`, `HydratorLoops`, `HydrationShape`, `Hydrator` | the objects; what is assigned to each, in closed form; the loops and the class whose methods update the objects in place |
| `HydratedAddresses`, `HydratedGateways`, `HydrationRuns` | the addresses and numbers after a run, field by field; when a run ends without an error |
| `Checker`, `CheckerLoops`, `Health`, `Answers` | when the checker fails and what it answers, stated without loops; the checker's loops, tables and counters; its answers read off the fields |
| `FitHosts`, `FitSwitches`, `FitLinks`, `FitGateways`, `HydrationFits`, `OwnerCounting` | the allocator meets the checker exactly when the pools fit |
| `Consistency`, `VtepUniqueness`, `OrderIndependence`, `Repeatability` | what a `Full` answer means; what it does not mean; permutations; second runs |
| `Matrix`, `MatrixPhases`, `MatrixRun`, `MatrixProbes`, `MatrixSoundness`, `ErrorChannel`, `MatrixChannel` | entries, lookup, validation; the phases; what is probed, field by field; soundness, coverage; the channel as a state machine |
| `Overlays`, `OverlayReads`, `ExternalForward`, `StaticNat` | the matrix object and its overlays; what is read and probed after them; NAT arithmetic |
| `Discovery`, `DiscoveryReads`, `Reconcile`, `ReconcileReads` | endpoint discovery and reconciliation, and what they leave, field by field |
| `VlabPorts`, `Settings`, `Topology`, `TopologyNames`, `TopologyLoad`, `TopologyBuilder` | port counters; settings; generated connections, their names, the ports they take; the class whose methods build them |
| `BuiltGroups`, `BuiltWiring`, `BuiltUplinks`, `BuiltSockets` | the switches and redundancy groups of a run; what is built meets hydration and the virtual lab |
| `GpuRail`, `VlabLinks`, `LinkReads`, `VlabSockets`, `LabDevices` | GPU rail addressing; cards; devices, card by card |
| `SuiteTrace`, `Suite`, `SuiteVerdicts` | the runner and the trace of what happens to the environment; selection and verdicts read off it |

A class stands for an object of the program that its methods update; each such method is tied to a function of the old
state, and the lemmas speak about those functions. For each main operation some of them say what is there afterwards in
terms of fields, numbers and names alone, without the functions. Names are natural numbers: only their equality and order matter.
Addresses are IPv4; an address field is unset, unparsable text, or an address with a prefix length. Stepping past
255.255.255.255 gives the invalid address, whose text never parses again, as in Go's `netip`. The API server is the
list of its objects, in listing order; an update keeps an object's place. Two things come from outside as parameters:
the outcomes of SSH probes, setups, tests and reverts, and whether listeners start.

## What came out

* The two hydration programs agree exactly under `HydrationFits.Fits`: a run succeeds and the checker then answers
  `Full` if and only if the wiring is well formed, each pool is large enough, and there is something to hydrate. Besides
  the sizes of the pools this takes nonzero ASN bases, no VTEP address on a spine that leads, and no leaf in an MCLAG
  group that a spine leads. The last two are conditions the code relies on without checking them.
* The checker registers the first member of an MCLAG group while it looks at the ASN, and so never compares that
  member's VTEP address with other leaves'. `VtepUniqueness.VtepsGuaranteed` gives the exact condition under which
  `Full` still implies that unrelated leaves have different VTEP addresses: no MCLAG group has its first listed leaf
  behind another leaf; `SharedButFull` is an instance where it does not. The allocator itself never shares an address
  (`HydratedVtepsApart`).
* Hydrating twice works whenever hydrating once does, and changes nothing but the gateways' neighbor lists, which get
  the same neighbors appended again.
* In the server phase a bidirectional throughput test leaves the measurement to the direction with the smaller source
  name. When that direction has protocol/port entries the phase skips it, and nobody measures. `MatrixSoundness.DrivenIff`
  gives the exact condition among all pairs of the phase (a denied pair is never measured, `testing.go:3204`),
  `NobodyDrives` a matrix that validates and shows it for an allowed pair.
* What the topology builder makes, hydration can use: `BuiltWiring.BuiltHydrates` goes from the builder's settings to a
  `Full` answer, with every pool's demand in closed form. The builder counts leaves, groups and servers in 8 bits; these
  results hold while no count overflows. With 256 groups the group loop does not run at all, and a request for multihomed
  servers passes its check and then panics (`Topology.NoCandidates`; `TwoCandidates` gives the exact condition).
* Linking to a hardware port overwrites a virtual card without checking that it is free, and can so break a pair.
  `VlabLinks.LinkKeeps` gives the exact condition, `TakeoverBreaksPair` an instance. It takes a port that two links use.
  The validation of connections (`connection_types.go:930-946` of the fabric API) refuses that, except for ports used by
  the deprecated MCLAG and MCLAG domain connections, which is where the instance can arise; validation is not part of
  this model. For links that use each port once `OnceMeansPaired` excludes it.
* `doRunSuite` has a comment (`rt_base.go:514`) saying that reverts stop at the first failure. The loop goes on; the
  model follows the code. A test that skips itself and then fails a revert ends up both skipped and failed.

## Model

| member | source | states |
|---|---|---|
| Net.ContainsRange | pkg/hhfab/hydrate.go:202-212 | a prefix contains exactly the addresses from its base on, as many as its size, and never runs past the last address |
| Sorting.SortedUnique | pkg/hhfab/hydrate.go:760-774 | a list in strict rank-and-name order is determined by its members |
| Sorting.SortObjects | pkg/hhfab/hydrate.go:716-718 | the sort call returns the one strictly ordered list of the same objects |
| HydratorLoops.AssignHosts | pkg/hhfab/hydrate.go:720-738 | the node loops give the k-th host the k-th management address and the k-th dummy /31, and leave both counters behind the last |
| HydratorLoops.AssignSwitch | pkg/hhfab/hydrate.go:778-816 | one turn of the switch loop: own addresses, own or the leader's ASN and VTEP address, counters advanced only for leaders that are leaves |
| HydratorLoops.AssignSwitches | pkg/hhfab/hydrate.go:776-816 | the switch loop with its peer table assigns every switch as a function of the list alone, and fails exactly on an invalid role |
| HydratorLoops.AssignLink | pkg/hhfab/hydrate.go:844-849 | both ends of link number m get the m-th address pair |
| HydratedAddresses.HostsAddressed | pkg/hhfab/hydrate.go:707-738 | on a wiring that fits, host k ends up with the address VIP + 4 + k and the k-th dummy /31: control nodes by name first, then the others as listed |
| HydratedAddresses.SwitchesAddressed | pkg/hhfab/hydrate.go:760-816 | likewise switches end up with management addresses behind the hosts' and protocol addresses from the prefix's base on, spines first, then by role and name; spines have the spine ASN |
| HydratedAddresses.LeavesNumbered | pkg/hhfab/hydrate.go:797-816 | likewise each leaf ends up with the ASN and the VTEP address at one offset from the start of both, within the number of owners, and standalone leaves come in order |
| HydratedAddresses.LinksAddressed | pkg/hhfab/hydrate.go:839-871 | likewise link number m ends up with addresses 2m and 2m + 1 of the fabric prefix, consecutive in a connection and in the order of the connections' names; other connections are left alone |
| Allocator.LeaderLeads | pkg/hhfab/hydrate.go:797-806 | the switch whose values a switch copies has values of its own and is the switch itself or its MCLAG peer |
| Hydrator.Config.HydrateGatewayLink | pkg/hhfab/hydrate.go:873-916 | one gateway link: which lookups must succeed, the interface it sets, the neighbor it appends, nothing else changed |
| Hydrator.Config.HydrateConns | pkg/hhfab/hydrate.go:830-925 | the connection loop updates connections and gateways link by link, succeeds exactly when all gateway links resolve, and on failure has only done a first part |
| Hydrator.Config.HydrateGateways | pkg/hhfab/hydrate.go:927-957 | the gateway loop: the 254 limit, protocol and VTEP addresses behind those of the switches, one MAC octet each without wrap |
| HydratedGateways.OctetsApart | pkg/hhfab/hydrate.go:927-957 | after a run the MAC octets of gateways are within 1 to 254, no two are the same, and they increase with the gateways' names |
| HydratedGateways.GatewaysAddressed | pkg/hhfab/hydrate.go:941-957 | on a wiring that fits, gateways end up with the gateway ASN and protocol and VTEP addresses behind those of the switches and leaves, in the order of their names |
| HydratedGateways.InterfacesSet | pkg/hhfab/hydrate.go:882-888 | after a run a linked interface has the address of a link to it and the fabric MTU, any other is as it was |
| HydratedGateways.NeighborsAppended | pkg/hhfab/hydrate.go:893-912 | after a run a gateway has the neighbors it had, and behind them for every link to it the switch's address and ASN, and nothing else |
| HydratedGateways.NeighborsApart | pkg/hhfab/hydrate.go:893-912 | the neighbors a run appends on a wiring that fits have increasing addresses, so none is appended twice |
| Hydrator.Config.Hydrate | pkg/hhfab/hydrate.go:689-960 | a run succeeds exactly when `Hydratable`, ends in `Hydrated`, and in any case keeps names, roles, groups, ports and order |
| HydrationRuns.RunsIff | pkg/hhfab/hydrate.go:689-960 | a run ends without an error exactly when the VIP is the first address behind the base of the management subnet, every switch is a spine or a leaf, there are at most 254 gateways, and every gateway link ends at an interface of a gateway and at a switch with an ASN, whose end has an address |
| Hydrator.Config.EnsureHydrated | pkg/hhfab/hydrate.go:136-176 | what each mode does for each answer of the checker, when hydration succeeds (exactly when `Fits`), and that success means `Full` |
| Checker.StatusMeaning | pkg/hhfab/hydrate.go:677-684 | the counters say Full exactly when every counted field is set and there is one, Nothing exactly when none is set |
| CheckerLoops.ProcessNode | pkg/hhfab/hydrate.go:228-272 | one host: which of its fields are looked at, when it fails, what is recorded |
| CheckerLoops.CheckASN | pkg/hhfab/hydrate.go:367-393 | the ASN branch with its MCLAG reference table and uniqueness table decides `AsnSound` |
| CheckerLoops.CheckVtep | pkg/hhfab/hydrate.go:417-432 | the VTEP branch, including the case where the switch has just become its own group's reference, decides `VtepSound` |
| CheckerLoops.CheckSwitches | pkg/hhfab/hydrate.go:313-437 | the switch loop accepts exactly the lists in which every switch is sound, and counts fields and gaps |
| CheckerLoops.CheckConns | pkg/hhfab/hydrate.go:446-612 | the connection loop accepts exactly the lists in which every complete link is a fresh pair in one /31 |
| CheckerLoops.CheckGateways | pkg/hhfab/hydrate.go:614-675 | the gateway loop accepts exactly the gateways whose addresses are fresh against the switches' and each other's |
| CheckerLoops.GetHydration | pkg/hhfab/hydrate.go:178-687 | the checker's verdict is the declarative `Check` |
| Answers.AcceptedIff | pkg/hhfab/hydrate.go:178-687 | the checker does not object exactly when the fields are healthy: each address in its prefix with its length, each ASN the configured one or in range, MCLAG peers alike, both ends of a link in one /31, and no address twice |
| Answers.AnswersRead | pkg/hhfab/hydrate.go:614-687 | it answers Full exactly when besides every counted field is set and there is one, Nothing exactly when none is set, and Partial otherwise |
| FitHosts.HostsIff | pkg/hhfab/hydrate.go:704-738 | assigned hosts are accepted and set exactly when management and dummy pools hold them |
| FitSwitches.AsnRange | pkg/hhfab/hydrate.go:809-810 | all ASNs handed out by the 32-bit counter are nonzero and in range exactly when the range holds the count, wrap-around included |
| FitSwitches.ListedPair | pkg/hhfab/hydrate.go:797-815 | after assignment two leaves have the same ASN, and the same VTEP address, exactly when they are MCLAG peers |
| FitSwitches.SwitchesIff | pkg/hhfab/hydrate.go:778-816 | assigned switches, listed in any order, are accepted and set exactly when every pool holds them and roles and groups are usable |
| FitLinks.NumbersDistinct | pkg/hhfab/hydrate.go:839-871 | no link number is given twice, in whatever order connections are listed |
| FitLinks.LinksIff | pkg/hhfab/hydrate.go:824-871 | assigned links are accepted and complete exactly when the fabric prefix holds two addresses for each |
| FitGateways.GatewaysIff | pkg/hhfab/hydrate.go:941-952 | assigned gateways are accepted and set exactly when both pools hold them behind the switches and leaves |
| HydrationFits.ResolveIff | pkg/hhfab/hydrate.go:873-905 | gateway lookups succeed only if all ports exist, and do succeed if besides switches have ASNs and the fabric pool suffices |
| HydrationFits.CountPermuted | pkg/hhfab/hydrate.go:835-837 | sorting the connections does not change how many links there are |
| HydrationFits.AllocatorMeetsChecker | pkg/hhfab/hydrate.go:136-176 | a run succeeds and the checker then answers Full exactly when the wiring fits |
| OwnerCounting.OwnersCounted | pkg/hhfab/hydrate.go:797-815 | with MCLAG on leaves only, each standalone leaf and each MCLAG group takes one ASN and one VTEP address, counted on the unsorted list |
| HydrationShape.HydratedKeepsShape | pkg/hhfab/hydrate.go:689-960 | hydration keeps everything that is not an assigned address |
| Consistency.MgmtConsistent | pkg/hhfab/hydrate.go:194-342 | Full: management addresses of hosts and switches are in the subnet, below the DHCP range, pairwise distinct and none is the VIP |
| Consistency.ProtoConsistent | pkg/hhfab/hydrate.go:345-364 | Full: protocol addresses are pairwise distinct over switches and gateways |
| Consistency.LinksConsistent | pkg/hhfab/hydrate.go:451-612 | Full: every link is on both addresses of one /31 and no other link has either |
| Consistency.LeavesConsistent | pkg/hhfab/hydrate.go:367-436 | Full: two leaves share an ASN exactly when they are MCLAG peers, peers share the VTEP address, a standalone leaf shares it with no earlier leaf |
| Consistency.GatewayVtepsConsistent | pkg/hhfab/hydrate.go:653-672 | Full: gateway VTEP addresses differ from each other and from every leaf's |
| VtepUniqueness.VtepsGuaranteed | pkg/hhfab/hydrate.go:373-432 | Full implies VTEP addresses that tell MCLAG groups apart, for all wirings of a shape, exactly when no group's first leaf is listed behind another leaf |
| VtepUniqueness.ExposedShares | pkg/hhfab/hydrate.go:373-432 | otherwise a wiring of that shape that the checker calls Full has two unrelated leaves with one VTEP address |
| VtepUniqueness.SharedButFull | pkg/hhfab/hydrate.go:373-432 | an instance: a standalone leaf listed before an MCLAG pair, with the pair's address |
| VtepUniqueness.HydratedVtepsApart | pkg/hhfab/hydrate.go:797-815 | the allocator's own VTEP addresses are shared exactly by MCLAG peers |
| OrderIndependence.OrderIndependent | pkg/hhfab/hydrate.go:716-718 | listing the same objects in another order gives the same success and the same objects |
| Repeatability.LinksEffect | pkg/hhfab/hydrate.go:882-912 | what a list of links does to a gateway: each port carries the last link's address, neighbors are appended in order |
| Repeatability.HydrateTwice | pkg/hhfab/hydrate.go:908-912 | a second run succeeds if the first did, and changes nothing except that every gateway's own neighbors are appended once more |
| Matrix.SortedPorts | pkg/hhfab/matrix.go:384-405 | sorting a pair's ports keeps each of them once |
| Matrix.PortsIncrease | pkg/hhfab/matrix.go:396-402 | they come by protocol, then by number, in strictly increasing order |
| Matrix.ExternalCurlAllowed | pkg/hhfab/matrix.go:348-368 | the loop finds the first external entry that lets a plain connection out |
| Matrix.CurlFromMeaning | pkg/hhfab/matrix.go:348-368 | it finds one exactly when there is one |
| Matrix.Validate | pkg/hhfab/matrix.go:278-328 | validation passes exactly when there are endpoints, nothing was dropped, and every undecided entry is excused, in any map order |
| MatrixProbes.ValidRead | pkg/hhfab/matrix.go:278-346 | a matrix is valid exactly when it lists endpoints, dropped none, and its undecided entries are those no phase needs: to an external from a server that gets out anyway, or default entries of server pairs with protocol/port entries and no forwarded port |
| MatrixPhases.ServerServerPhase | pkg/hhfab/matrix.go:462-539 | the server phase plans one probe for each pair it owns and fails exactly when one of them has no address |
| MatrixPhases.CurlPhase | pkg/hhfab/matrix.go:541-556 | one connection attempt for each source server, expected to get through exactly when any of its endpoints is let out |
| MatrixPhases.AddTarget | pkg/hhfab/matrix.go:611-618 | an Allow for a shared virtual target wins over a Deny, in any order |
| MatrixPhases.PortForwardPhase | pkg/hhfab/matrix.go:584-645 | one probe for each forwarding server pair, one for each virtual target at externals |
| MatrixPhases.ProtoPortPhase | pkg/hhfab/matrix.go:720-778 | one probe, or one error in its place, for each protocol/port entry of each pair |
| MatrixRun.CountPortEntries | pkg/hhfab/matrix.go:826-835 | the loop counts the protocol/port entries over all pairs of positions |
| MatrixRun.PairCost | pkg/hhfab/matrix.go:481-491 | a pair costs two errors in the server phase or one in a port forward, never both |
| MatrixRun.ChannelFits | pkg/hhfab/matrix.go:826-836 | all probes together send at most 2n^2 + n + protoEntries errors |
| MatrixRun.TestConnectivity | pkg/hhfab/matrix.go:780-878 | when a test is refused, what it plans when it is not, and that the error channel holds all errors |
| MatrixProbes.PingsRead | pkg/hhfab/matrix.go:462-539 | a planned ping or throughput test belongs to an eligible pair without protocol/port entries or a forwarded port, aims at the entry's address if it has one and at the server's otherwise, and expects the entry's verdict; each such pair has one |
| MatrixProbes.TargetedRead | pkg/hhfab/matrix.go:493-503 | the server phase fails exactly when one of these would aim at no address |
| MatrixProbes.ForwardsRead | pkg/hhfab/matrix.go:584-640 | a planned port-forward test belongs to an eligible pair and its decided entry: source, address, port and expectation |
| MatrixProbes.VirtualsRead | pkg/hhfab/matrix.go:604-645 | the virtual targets at externals are those of the decided entries that forward a port there, expected to answer exactly when one of them allows it |
| MatrixProbes.PortsRead | pkg/hhfab/matrix.go:720-778 | a planned protocol/port probe belongs to an eligible pair and one of its entries, and aims and expects as the entry says; it is an error exactly when there is no address or no such probe |
| MatrixProbes.CurlsRead | pkg/hhfab/matrix.go:541-582 | the connection attempts are those of the selected source servers, expected to get out exactly when an entry from an endpoint of the server to an external allows it, with a source pool if it translates at all |
| ErrorChannel.Conserved | pkg/hhfab/matrix.go:836-878 | in every interleaving, queued errors and errors still to be sent add up to the same number |
| ErrorChannel.NeverBlocked | pkg/hhfab/matrix.go:836-878 | with capacity for all errors no sender is ever blocked |
| ErrorChannel.DeadlockIff | pkg/hhfab/matrix.go:836-878 | waiting for all senders before draining can deadlock exactly when the errors exceed the capacity |
| MatrixChannel.ProbesNeverBlock | pkg/hhfab/matrix.go:836-878 | whatever errors the probes send within their limits and in whatever order, the channel never blocks |
| MatrixSoundness.ServersDecided | pkg/hhfab/matrix.go:306-319 | in a valid matrix every pair of the server phase has a decided expectation |
| MatrixSoundness.ForwardsDecided | pkg/hhfab/matrix.go:334-346 | in a valid matrix every port forward between servers is decided, so none is skipped for being undecided |
| MatrixSoundness.PortsDecided | pkg/hhfab/matrix.go:306-319 | in a valid matrix every protocol/port entry between servers is decided |
| MatrixSoundness.CurlDecided | pkg/hhfab/matrix.go:299-319 | in a valid matrix a server expected not to get out has no undecided entry to any external from any of its endpoints |
| MatrixSoundness.PairOwned | pkg/hhfab/matrix.go:481-491 | each ordered pair of servers on different nodes belongs to the port phase, else the forward phase, else the server phase |
| MatrixSoundness.NoPairUnprobed | pkg/hhfab/matrix.go:780-877 | with open filters a test that runs probes every such pair |
| MatrixSoundness.DrivenIff | pkg/hhfab/matrix.go:505-518 | a pair of the server phase has its throughput measured exactly when it is allowed and is not left to a direction that has protocol/port entries |
| MatrixSoundness.NobodyDrives | pkg/hhfab/testing.go:2376-2379 | a valid matrix in which an allowed pair's throughput is measured by nobody |
| MatrixSoundness.TargetReachable | pkg/hhfab/matrix.go:611-618 | a virtual target at externals is probed exactly when some pair forwards to it and expected to answer exactly when one of them is allowed |
| Overlays.ConnectivityMatrix.Add | pkg/hhfab/matrix.go:246-256 | inserts or replaces the one entry of the pair and port |
| Overlays.ConnectivityMatrix.OverlayNAT | pkg/hhfab/matrix.go:164-201 | when the overlay succeeds, what it stores for each selected pair from what was there before, and that nothing else changes; keeps "a forwarded port has an address" if the change to each expectation does |
| Overlays.ConnectivityMatrix.OverrideVerdict | pkg/hhfab/rt_nat_tests.go:186-207 | rewrites the default verdict of exactly the pairs between the two VPCs; keeps "a forwarded port has an address" |
| Overlays.ConnectivityMatrix.SetPortVerdict | pkg/hhfab/rt_nat_tests.go:217-239 | adds a protocol/port entry to exactly those pairs and leaves their other entries alone; keeps "a forwarded port has an address" |
| Overlays.ConnectivityMatrix.ExternalNoEgress | pkg/hhfab/rt_nat_external_tests.go:104-120 | denies every other external to the servers of the VPC; keeps "a forwarded port has an address" |
| Overlays.ConnectivityMatrix.ExternalSNAT | pkg/hhfab/rt_nat_external_tests.go:19-30 | allows the external with the source pool, keeping the rest of the translation; keeps "a forwarded port has an address" |
| Overlays.ConnectivityMatrix.StaticDNAT | pkg/hhfab/rt_nat_tests.go:127-150 | sends the pairs to the static NAT addresses, failing when a server has none; keeps "a forwarded port has an address" |
| Overlays.ConnectivityMatrix.PortForwardDNAT | pkg/hhfab/rt_nat_tests.go:156-184 | the same for one nonzero port; keeps "a forwarded port has an address" |
| Overlays.ConnectivityMatrix.ExternalPortForward | pkg/hhfab/rt_nat_external_tests.go:81-97 | when it is refused, and that it denies the other externals and then forwards the port at this one; keeps "a forwarded port has an address" |
| OverlayReads.OverrideReads | pkg/hhfab/rt_nat_tests.go:186-207 | afterwards the default entry between the VPCs has the requested verdict and keeps translation, reason and peering; every other entry is as before |
| OverlayReads.PortVerdictReads | pkg/hhfab/rt_nat_tests.go:217-239 | afterwards the port between the VPCs has the requested verdict and the translation and peering of the default entry; every other entry is as before |
| OverlayReads.NoEgressReads | pkg/hhfab/rt_nat_external_tests.go:104-120 | afterwards every other external is denied, untranslated; every other entry is as before |
| OverlayReads.SourceNatReads | pkg/hhfab/rt_nat_external_tests.go:19-30 | afterwards the external is allowed with the source pool and the destination address and port there were; every other entry is as before |
| OverlayReads.ForwardReads | pkg/hhfab/rt_nat_external_tests.go:81-120 | afterwards the external is allowed at the requested address and port, with the source pool there was, and every other external denied; every other entry is as before |
| OverlayReads.StaticReads | pkg/hhfab/rt_nat_tests.go:127-150 | afterwards a source aims at the server's place in the pool, with the source pool and port there were; every other entry is as before |
| OverlayReads.StaticPortReads | pkg/hhfab/rt_nat_tests.go:156-184 | the same on the requested port |
| OverlayReads.StaticRefused | pkg/hhfab/rt_nat_tests.go:127-184 | when these two are refused: no pair is between the VPCs, or a server has no address or one before the subnet |
| OverlayReads.StaticProbed | pkg/hhfab/rt_nat_tests.go:122-126 | a test planned after the overlay probes the pair at the server's place in the pool and expects it to answer |
| OverlayReads.StaticPortProbed | pkg/hhfab/rt_nat_tests.go:153-184 | and with a forwarded port tests that port there |
| ExternalForward.ForwardDecisive | pkg/hhfab/rt_nat_external_tests.go:76-120 | after the external port forward no default entry to an external is undecided, and a plain connection gets out exactly when the external's entry already had a source pool |
| StaticNat.LandsInPool | pkg/hhfab/rt_nat_tests.go:93-120 | the NAT address is in the pool exactly when the offset is smaller than the pool, and then the 32-bit sum does not wrap |
| StaticNat.PoolLargeEnough | pkg/hhfab/rt_nat_tests.go:93-120 | all addresses of a subnet land in the pool exactly when the pool is at least as large |
| StaticNat.RoundTrip | pkg/hhfab/rt_nat_tests.go:93-120 | swapping the bases inverts it |
| StaticNat.Injective | pkg/hhfab/rt_nat_tests.go:93-120 | different addresses have different NAT addresses |
| StaticNat.Onto | pkg/hhfab/rt_nat_tests.go:93-120 | with equal sizes every pool address is reached |
| Discovery.CollectCandidates | pkg/hhfab/endpoints.go:175-193 | repeated host-BGP attachments to a subnet are collapsed |
| Discovery.CandidatesComplete | pkg/hhfab/endpoints.go:175-193 | collapsing loses no subnet, and a host-BGP attachment is never a repetition |
| DiscoveryReads.CandidatesRead | pkg/hhfab/endpoints.go:175-193 | the candidates are the attachments in their order, without the host-BGP ones to a subnet attached before |
| Discovery.FindBest | pkg/hhfab/endpoints.go:240-250 | the inner loop finds the first of the narrowest subnets that contain the address |
| Discovery.MatchServer | pkg/hhfab/endpoints.go:230-292 | what the matching loop emits and drops for a server |
| Discovery.AttachmentsConserved | pkg/hhfab/endpoints.go:260-291 | emitted endpoints and attachment drops add up to the attachments |
| Discovery.AddressesDropped | pkg/hhfab/endpoints.go:251-259 | addresses are dropped exactly when no attachment subnet contains them |
| Discovery.EmittedFrom | pkg/hhfab/endpoints.go:239-279 | emitted endpoints come from different attachments, each being the first address whose narrowest subnet that is |
| Discovery.EmittedKeysDistinct | pkg/hhfab/endpoints.go:239-279 | their (VPC, subnet) keys are pairwise distinct even when attachments repeat one |
| DiscoveryReads.EndpointsRead | pkg/hhfab/endpoints.go:239-276 | the endpoints reported are those of the first address matched to each attachment: the server's name, the attachment's VPC, subnet and host-BGP flag, and that address, which lies in its subnet |
| DiscoveryReads.AddressDropsRead | pkg/hhfab/endpoints.go:251-259 | drops of addresses name the server alone |
| DiscoveryReads.AttachmentDropsRead | pkg/hhfab/endpoints.go:277-291 | drops of attachments name the server and the subnets no address was matched to |
| Overlays.ConnectivityMatrix.ReplaceServerEndpoints | pkg/hhfab/endpoints.go:303-358 | the new endpoint list, fields and entries as a function of the old |
| Overlays.ConnectivityMatrix.ReplaceServerDrops | pkg/hhfab/endpoints.go:360-377 | the new drop list as a function of the old |
| Reconcile.KeysReplaced | pkg/hhfab/endpoints.go:320-343 | afterwards the server's listed keys are exactly the new ones |
| Reconcile.AddressesReplaced | pkg/hhfab/endpoints.go:326-333 | each with the address discovery found for it |
| Reconcile.OthersUntouched | pkg/hhfab/endpoints.go:320-325 | endpoints of other servers and externals stay listed with all their fields |
| Reconcile.EntriesReconciled | pkg/hhfab/endpoints.go:345-357 | exactly the entries between endpoints that stay listed are kept, unchanged, and entries still refer to listed endpoints |
| Reconcile.KeysStayDistinct | pkg/hhfab/endpoints.go:320-343 | a server still has at most one listed endpoint for a key |
| Reconcile.DropsReplaced | pkg/hhfab/endpoints.go:360-377 | the server's drops are exactly the new ones and the other servers' are as before |
| ReconcileReads.ListedRead | pkg/hhfab/endpoints.go:320-343 | a listed endpoint of the server stays, as the object it is, exactly if a new one has its VPC and subnet; a new one is added exactly if no listed one has; all others stay |
| ReconcileReads.FieldsRead | pkg/hhfab/endpoints.go:326-333 | one that stays takes over address and host-BGP flag, and no other field changes |
| ReconcileReads.EntriesRead | pkg/hhfab/endpoints.go:345-357 | the entries that go are those of endpoints that are listed no more |
| ReconcileReads.OrderRead | pkg/hhfab/endpoints.go:318-343 | what stays keeps its order and comes before what is added |
| ReconcileReads.DropsRead | pkg/hhfab/endpoints.go:360-377 | each drop is there as often as it was found, or for another server as it was before |
| VlabPorts.PortTracker.NextSwitchPort | pkg/hhfab/vlabbuilder.go:1056-1073 | the port is the one its device's call count gives, and only that device's counter moves |
| VlabPorts.PortTracker.NextServerPort | pkg/hhfab/vlabbuilder.go:1075-1086 | the same for servers, whose 8-bit counter has no stride |
| VlabPorts.RepeatsEveryHundred | pkg/hhfab/vlabbuilder.go:1056-1073 | two calls give the same port exactly when a multiple of a hundred calls lies between them |
| VlabPorts.TooManyReported | pkg/hhfab/vlabbuilder.go:1066-1068 | the first 55 calls report nothing, the next 44 report too many ports |
| VlabPorts.FitsNICs | pkg/hhfab/vlabconfig.go:962-964 | exactly the first 52 of a hundred ports fit a machine's cards |
| VlabPorts.PortsUsedOnce | pkg/hhfab/vlabbuilder.go:1056-1086 | a switch given at most a hundred ports, or a server given at most 256, gets each once |
| VlabPorts.PortsFit | pkg/hhfab/vlabconfig.go:962-964 | the ports of a switch given at most 52, or of a server given at most 63, fit its machine's cards |
| Topology.SpineShapesCount | pkg/hhfab/vlabbuilder.go:607-670 | every spine and leaf have exactly one fabric connection, every gateway exactly one link to each spine with uplinks |
| Topology.MeshShapesCount | pkg/hhfab/vlabbuilder.go:672-699 | every two leaves have exactly one mesh connection |
| Topology.MeshGatewaysCount | pkg/hhfab/vlabbuilder.go:701-734 | in a mesh every gateway has exactly one link to each of the first leaves |
| Topology.LoopEnds | pkg/hhfab/vlabbuilder.go:607-619 | an 8-bit loop up to and including a bound ends exactly when the bound is not 255 |
| Topology.TwoCandidates | pkg/hhfab/vlabbuilder.go:222-224 | where multihomed servers are accepted there are two candidate leaves exactly when there are two orphans or the 8-bit group loop runs at all |
| Topology.NoCandidates | pkg/hhfab/vlabbuilder.go:369-369 | an accepted request, with 256 groups, for which there is no candidate |
| TopologyNames.HomesDistinct | pkg/hhfab/vlabbuilder.go:367-383 | without overflow the candidates are distinct leaves, and two at least where multihomed servers are asked for |
| TopologyNames.SwitchPartCount | pkg/hhfab/vlabbuilder.go:607-734 | every connection between switches or to a gateway is made exactly once, and which ones there are |
| TopologyNames.AllNamesDistinct | pkg/hhfab/vlabbuilder.go:1194-1216 | without overflow no two connections get the same name |
| TopologyLoad.GroupedLeafPorts | pkg/hhfab/vlabbuilder.go:369-734 | the ports a whole run takes of a grouped leaf: external, its group's servers, multihomed servers, fabric or mesh, gateways |
| TopologyLoad.OrphanLeafPorts | pkg/hhfab/vlabbuilder.go:493-734 | the same for an orphan leaf |
| TopologyLoad.SpinePorts | pkg/hhfab/vlabbuilder.go:607-670 | the same for a spine |
| TopologyLoad.OtherLeafPorts | pkg/hhfab/vlabbuilder.go:369-734 | no port is taken of a leaf that is not built |
| TopologyLoad.ServerPorts | pkg/hhfab/vlabbuilder.go:409-605 | no server takes more than four ports |
| TopologyLoad.WithinIff | pkg/hhfab/vlabbuilder.go:1056-1073 | all switches stay within a number of ports exactly when the closed forms, read off the settings, do |
| TopologyLoad.HomedServersTake | pkg/hhfab/vlabbuilder.go:569-605 | the links multihomed servers put on a candidate leaf are its turns |
| TopologyLoad.RoundsClosed | pkg/hhfab/vlabbuilder.go:569-575 | the turns are whole rounds over the candidates, and the rest goes to the first ones |
| TopologyLoad.RoundRobinFair | pkg/hhfab/vlabbuilder.go:569-605 | each multihomed server has two different leaves, and the links on any two candidates differ by at most one in number |
| TopologyLoad.MultihomedFair | pkg/hhfab/vlabbuilder.go:569-605 | this holds of every run without overflow that builds multihomed servers |
| TopologyBuilder.Builder.Prepare | pkg/hhfab/vlabbuilder.go:83-236 | which settings are refused, and the defaults, uplinks and corrections applied to the others |
| Settings.PreparedIff | pkg/hhfab/vlabbuilder.go:83-236 | which settings are accepted, and what is built for them, setting by setting: two spines, two fabric links, a group of two and an orphan, two uplinks where nothing else is said, and what is refused |
| TopologyBuilder.Builder.BuildGateways | pkg/hhfab/vlabbuilder.go:319-354 | the gateway loop creates each gateway with one interface for each uplink |
| TopologyBuilder.Builder.BuildGroups | pkg/hhfab/vlabbuilder.go:369-491 | the group loop with its 8-bit bound and counters: leaves, externals, servers, and the candidates for multihomed servers |
| TopologyBuilder.Builder.BuildOrphans | pkg/hhfab/vlabbuilder.go:493-567 | the orphan loop likewise |
| TopologyBuilder.Builder.BuildMultihomed | pkg/hhfab/vlabbuilder.go:569-605 | the multihomed loop gives each server the next two candidates, round and round |
| TopologyBuilder.Builder.BuildFabric | pkg/hhfab/vlabbuilder.go:607-670 | the 8-bit spine loop adds exactly the connections of the closed form, and the connections account for every port handed out |
| TopologyBuilder.Builder.BuildMesh | pkg/hhfab/vlabbuilder.go:672-699 | the mesh loops likewise |
| TopologyBuilder.Builder.BuildMeshGateways | pkg/hhfab/vlabbuilder.go:701-734 | the mesh gateway loop likewise, stopping at the uplinks or the last leaf |
| TopologyBuilder.Builder.Build | pkg/hhfab/vlabbuilder.go:77-734 | a whole run: when it is refused, when it panics for want of a candidate, and all switches, gateways and connections it makes otherwise |
| BuiltGroups.SwitchesBuilt | pkg/hhfab/vlabbuilder.go:369-617 | the switches of a run: the leaves of each group, then those of none, then the spines, with name, role and redundancy group, and nothing assigned yet |
| BuiltGroups.GroupsShared | pkg/hhfab/vlabbuilder.go:370-395 | two built leaves have the same redundancy group exactly when they come from the same group of the settings; an orphan has none |
| BuiltGroups.GroupReached | pkg/hhfab/vlabbuilder.go:409-437 | the switches a server's group connection reaches are exactly those of one redundancy group, each by one link |
| BuiltGroups.GatewaysBuilt | pkg/hhfab/vlabbuilder.go:319-354 | the gateways of a run: names, an empty interface for each uplink, and nothing assigned yet |
| TopologyBuilder.NoOverflowBuilds | pkg/hhfab/vlabbuilder.go:77-734 | without overflow every loop ends and no accepted run panics |
| TopologyBuilder.Builder.CallsBuilt | pkg/hhfab/vlabbuilder.go:1056-1073 | after a run a device's port counter stands where the closed form puts it |
| TopologyBuilder.Builder.NoPortTwice | pkg/hhfab/vlabbuilder.go:1056-1086 | no two links use the same port while a switch has at most a hundred of them |
| TopologyBuilder.Builder.SwitchPortFits | pkg/hhfab/vlabconfig.go:962-964 | the ports of a switch with at most 52 fit its machine's cards |
| BuiltWiring.UplinksHaveSwitches | pkg/hhfab/vlabbuilder.go:177-193 | there is a spine, or in a mesh a leaf, for every uplink |
| BuiltWiring.UplinksExact | pkg/hhfab/vlabbuilder.go:642-734 | in either kind of fabric every interface of every gateway is used by exactly one connection of the whole run |
| BuiltWiring.RunGenerates | pkg/hhfab/vlabbuilder.go:77-734 | the objects a run leaves behind, with their real ports, are those the next rows speak of |
| BuiltWiring.GeneratedDistinct | pkg/util/apiutil/loader.go:93-103 | no object is built with the name of another of its kind, so the store accepts them all |
| BuiltWiring.BuiltLinksKnown | pkg/hhfab/hydrate.go:873-905 | hydration's lookups of gateway, interface and switch cannot fail on what a run builds |
| BuiltWiring.BuiltLinkCount | pkg/hhfab/vlabbuilder.go:607-734 | how many links hydration has to number, in closed form for either kind of fabric |
| BuiltWiring.BuiltOwners | pkg/hhfab/hydrate.go:797-815 | each built leaf takes an ASN and a VTEP address of its own |
| BuiltWiring.BuiltHydrates | pkg/hhfab/hydrate.go:136-176 | on what a run builds, hydration succeeds and ends Full exactly when the pools hold numbers that are read off the settings |
| BuiltUplinks.InterfaceKeepsAddress | pkg/hhfab/hydrate.go:882-912 | after hydration every built gateway interface has the address of the one connection to it: none is overwritten |
| BuiltSockets.BuiltUsedOnce | pkg/hhfab/vlabconfig.go:695-752 | the links of a built topology use every card once while no switch takes more than a hundred ports |
| BuiltSockets.BuiltPortsFit | pkg/hhfab/vlabconfig.go:962-964 | with at most 52 ports a switch every port fits the cards of its machine |
| BuiltSockets.BuiltPaired | pkg/hhfab/vlabconfig.go:634-687 | its machines accept all links and end up with every card paired |
| GpuRail.AllValidIff | pkg/hhfab/vlabbuilder.go:996-1006 | all /31s written down are valid addresses exactly within 32 VPCs, 256 units and 128 servers |
| GpuRail.SlotsDisjoint | pkg/hhfab/vlabbuilder.go:996-1000 | different slots have disjoint, aligned /31s |
| GpuRail.SlotInVpc | pkg/hhfab/vlabbuilder.go:957-1000 | a slot's /31 lies in its VPC's /13 and in no other |
| GpuRail.VpcsDisjoint | pkg/hhfab/vlabbuilder.go:957-971 | the /13s are disjoint |
| GpuRail.OneSummary | pkg/hhfab/vlabbuilder.go:1012-1018 | exactly one /24 covers a slot's /31 |
| GpuRail.Build | pkg/hhfab/vlabbuilder.go:956-1020 | the loops attach each slot in order and give each leaf the summaries of its own rails |
| GpuRail.AttachedMembers | pkg/hhfab/vlabbuilder.go:973-1009 | exactly the slots in scale are attached, each at the leaf of its rail |
| GpuRail.AttachedOnce | pkg/hhfab/vlabbuilder.go:973-1009 | and none twice |
| GpuRail.RailsSpread | pkg/hhfab/vlabbuilder.go:973-1009 | the eight rails of a server spread over the four leaves of its unit, two on each |
| GpuRail.CoveredOnce | pkg/hhfab/vlabbuilder.go:1012-1035 | over all leaves exactly one summary covers an attachment's /31, and the attachment's own leaf holds it |
| VlabLinks.VlabConfig.AddLink | pkg/hhfab/vlabconfig.go:634-687 | when a link is refused, and which cards it writes otherwise |
| LinkReads.FailsIff | pkg/hhfab/vlabconfig.go:640-682 | a link fails exactly when a virtual end has no machine, an end is on a control machine, both ends are virtual and one is in use, or the hardware end has no passthrough |
| LinkReads.LinkRead | pkg/hhfab/vlabconfig.go:660-684 | otherwise its virtual ends are wired to each other or passed through to the hardware, and every other card is as before |
| VlabLinks.VlabConfig.AddLinks | pkg/hhfab/vlabconfig.go:695-752 | the connection loop adds links until one fails |
| VlabLinks.LinkKeeps | pkg/hhfab/vlabconfig.go:634-687 | a link keeps cards paired exactly when it is not a hardware link that takes over a card paired with another |
| VlabLinks.TakeoverBreaksPair | pkg/hhfab/vlabconfig.go:660-684 | there are links after which one card points to another that does not point back |
| VlabLinks.OnceMeansPaired | pkg/hhfab/vlabconfig.go:634-687 | links that use each port once leave all cards paired |
| VlabLinks.OnceMeansLinked | pkg/hhfab/vlabconfig.go:634-687 | without hardware such links between existing machines are all accepted |
| VlabLinks.VirtualMeansPaired | pkg/hhfab/vlabconfig.go:660-669 | without hardware any links that are accepted leave all cards paired |
| VlabSockets.CollectNics | pkg/hhfab/vlabconfig.go:949-960 | cards by number in any map order, or failure on a name without a number |
| VlabSockets.BuildTable | pkg/hhfab/vlabconfig.go:962-973 | the padded table holds each card in its slot, fillers elsewhere, and fails exactly on unusable numbers |
| VlabSockets.BuildDevices | pkg/hhfab/vlabconfig.go:975-1080 | the device of each slot, when it fails, and the running tap counter |
| VlabSockets.FromConfig | pkg/hhfab/vlabconfig.go:925-1114 | machines numbered in type and name order, the devices of each, and when it fails: some machine is broken, and none is after a success if its cards have different numbers |
| LabDevices.SlotRead | pkg/hhfab/vlabconfig.go:966-1058 | the device of each slot of a lab: that of a card with its number, or a listening filler |
| LabDevices.CardRead | pkg/hhfab/vlabconfig.go:990-1058 | the device of each card: for a direct link the ports of both cards, for a user network port 22000 plus the machine's number, for a passthrough its own PCI address |
| LabDevices.UserPortsApart | pkg/hhfab/vlabconfig.go:1031-1033 | user networks forward the same host port exactly when they are of the same machine |
| LabDevices.UserPortsFree | pkg/hhfab/vlabconfig.go:1218-1224 | in a lab of at most a hundred machines no card uses a forwarded port |
| LabDevices.TapNumber | pkg/hhfab/vlabconfig.go:1041-1046 | a tap device has the number of those before it |
| LabDevices.MachinesNumbered | pkg/hhfab/vlabconfig.go:925-941 | machines are numbered control, external, gateway, server, switch, and by name within a type |
| LabDevices.RefusedRead | pkg/hhfab/vlabconfig.go:949-1029 | a refused configuration has a machine with a card whose name has no number below 64, a link to a machine or card there is not, or two user networks |
| LabDevices.AcceptedRead | pkg/hhfab/vlabconfig.go:949-1029 | an accepted one has no such machine among those whose cards have different numbers |
| VlabSockets.SocketsPair | pkg/hhfab/vlabconfig.go:998-1020 | the sockets of two directly linked cards match crosswise |
| VlabSockets.LocalPortsDistinct | pkg/hhfab/vlabconfig.go:1008-1020 | no two direct cards of a lab listen on the same port |
| VlabSockets.DirectPortsDistinct | pkg/hhfab/vlabconfig.go:1218-1220 | different cards have different direct ports |
| VlabSockets.PortsAvoidSSH | pkg/hhfab/vlabconfig.go:1218-1224 | direct and SSH ports of a lab never meet exactly when it has at most a hundred machines |
| VlabSockets.PortsFit | pkg/hhfab/vlabconfig.go:1218-1220 | a machine's direct ports are 16-bit port numbers exactly when its number is at most 433 |
| VlabSockets.TapsDistinct | pkg/hhfab/vlabconfig.go:1041-1046 | every management card of the lab has a tap device of its own |
| VlabSockets.SlotsDistinct | pkg/hhfab/vlabconfig.go:1071-1071 | cards of a machine sit in different slots of its two PCI bridges |
| SuiteTrace.AppendSetup | pkg/hhfab/rt_base.go:481-504 | a setup keeps the trace safe and decides whether the environment is clean |
| SuiteTrace.AppendBlock | pkg/hhfab/rt_base.go:505-581 | a test and its reverts keep the trace safe, and leave the environment clean exactly when no revert fails |
| Suite.CountsAfter | pkg/hhfab/rt_base.go:451-597 | how the counters move when one case changes |
| Suite.TestSuite.RunReverts | pkg/hhfab/rt_base.go:547-581 | all reverts run, last one first, and the first failure of a test that had not failed counts once |
| Suite.TestSuite.RunTest | pkg/hhfab/rt_base.go:507-581 | the verdict of a case from what the test returns and which reverts fail |
| Suite.TestSuite.DoRun | pkg/hhfab/rt_base.go:451-597 | over every run: tests only in a clean environment, reverts complete and in reverse order even before a fail-fast return, isolation when wiping, setups only when they are due, no case lost but to a failed setup, verdict of every case, counters, where fail-fast stops |
| Suite.TestSuite.RegexpSelection | pkg/hhfab/rt_base.go:599-625 | which cases the expressions leave out, and that the counter agrees |
| Suite.TestSuite.FlagSelection | pkg/hhfab/rt_base.go:643-751 | which cases cannot run in this environment, and that the counter agrees |
| Suite.TestSuite.FailAllTests | pkg/hhfab/rt_base.go:627-639 | fails exactly the cases that are not skipped, and counts them |
| Suite.TestSuite.SelectAndRun | pkg/hhfab/rt_base.go:641-773 | a suite starts exactly when a case is left, a failed first setup fails every case left, errors are returned only when failing fast |
| SuiteVerdicts.CannotRunIff | pkg/hhfab/rt_base.go:643-751 | a test cannot run exactly when it needs something the environment does not offer, need by need; one without needs always can |
| SuiteVerdicts.LeftOutIff | pkg/hhfab/rt_base.go:599-625 | without expressions nothing is left out, otherwise what matches none, or inverted what matches one |
| SuiteVerdicts.VerdictRead | pkg/hhfab/rt_base.go:507-581 | what a verdict says about the record of the run: a case is skipped or failed exactly when its test said so, a revert of it failed, or it did not run |
| SuiteVerdicts.AllRunIff | pkg/hhfab/rt_base.go:481-504 | every selected case runs exactly when no setup fails |
| SuiteVerdicts.SetupDue | pkg/hhfab/rt_base.go:481-483 | without isolation the environment is set up again only after a failed revert or setup |

## Left out

- The API server, SSH, HTTP, QEMU, files and the kernel: objects are lists and maps, probe outcomes are parameters.
- Parsing and formatting of addresses, prefixes and names: the model starts from parsed values; configuration fields that fail to parse are not modelled, and object fields that do not parse are one value.
- IPv6: addresses, prefixes and NAT are IPv4.
- VTEP MAC addresses: only their last octet is modelled.
- One switch role order: roles outside the known set share one rank, since any of them fails the run.
- Three identical link branches of the checker, for fabric, mesh and gateway connections, are one method; the two identical branches of the allocator likewise.
- A gateway whose interface table is nil: it behaves like an empty one.
- Failures of API calls in the middle of a run: only the errors the code itself raises are modelled.
- Endpoints that are neither server nor external, and nil endpoints: the matrix's documentation rules them out.
- Overlays.ConnectivityMatrix.OverlayNAT: an endpoint listed twice in the matrix is not modelled, so each selected pair is visited once.
- Overlays.ConnectivityMatrix.ReplaceServerEndpoints: new endpoints are objects that are not listed yet, named for the server and with distinct keys, as discovery returns them.
- The double loops of the plain overlays are one method with the rewritten expectation as a parameter.
- Discovery.MatchServer: reading attachments, connections and VPCs from the API is not modelled, nor the order in which servers are probed.
- Addresses that match an attachment which already has one are neither emitted nor dropped, as in the code; no claim is made about them.
- Populating the matrix from the cluster, and building external endpoints: their results are arbitrary matrices.
- Suite.TestSuite.DoRun: the messages of failures and skips, timings, diagnostics and pausing are not modelled.
- TopologyBuilder.Builder.Build: settings with an 8-bit bound of 255 are excluded, where a loop runs on until the object store refuses a repeated name (`Topology.LoopEnds`); refusals by the store are not modelled, and without overflow there are none (`BuiltWiring.GeneratedDistinct`).
- The builder without switches, its switch profiles, boot addresses, descriptions and log levels, and its VPCs, external objects and attachments; settings start from parsed values, and gateways are created in the order of their names.
- BuiltWiring.RunGenerates: the naming of connections is any function that keeps different kinds and devices apart, as the generated names do.
- BuiltSockets.BuiltUsedOnce: external connections, which get a card only when a virtual external is attached, are not among the links.
- VlabSockets.FromConfig: MAC addresses, sizes, restrictions and the fixed port forwards of the first control machine are not modelled; when two cards of a machine have the same number, either may win.
- VlabLinks.VlabConfig.AddLinks: reading the connection kinds, and skipping external connections, is not modelled; it takes the list of links.
- Everything else in the repository: installers, downloads, support dumps, diagrams, the fabricator's reconciler and the individual release tests.
