/**
  * When the addresses given to gateways pass the checker: exactly when the pools that they share with the switches are
  * large enough and the gateways' ASN is set.
  */
module FitGateways {
  import opened Net
  import opened WiringModel
  import opened Store
  import opened Ranking
  import opened Checker
  import opened Allocator
  import opened FitHosts

  predicate GatewaysFit(f: FabConfig, switches: nat, owners: nat, count: nat) {
    count > 0 ==>
      f.gatewayASN > 0 && switches + count <= Size(f.protocol) && owners + count <= Size(f.vtep)
  }

  /** Every taken address is one of the first n of the prefix. */
  predicate TakenBelow(p: Prefix, taken: set<U32>, n: nat) {
    forall a :: a in taken ==> a < Masked(p) + n
  }

  lemma {:induction false} GatewayAlone(f: FabConfig, switches: nat, owners: nat, g: Gateway, r: nat)
    ensures var s := AssignedGateway(f, switches, owners, g, r);
      && (GatewayOk(f, s) && GatewaysSet([s]) <==>
          f.gatewayASN > 0 && switches + r < Size(f.protocol) && owners + r < Size(f.vtep))
      && (s.spec.protocolIP.Cidr? ==> s.spec.protocolIP.addr == Masked(f.protocol) + switches + r)
      && (s.spec.vtep.Cidr? ==> s.spec.vtep.addr == Masked(f.vtep) + owners + r)
      && (s.spec.asn == f.gatewayASN)
  {
    var s := AssignedGateway(f, switches, owners, g, r);
    PoolHolds(f.protocol, switches + r, 32);
    PoolHolds(f.vtep, owners + r, 32);
    assert [s][0] == s;
  }

  lemma {:induction false} GatewayFresh(f: FabConfig, switches: nat, owners: nat, gws: seq<Gateway>, now: seq<Gateway>, rank: seq<nat>,
                     protos: set<U32>, vteps: set<U32>, i: nat)
    requires Ranks(now, AssignedGateways(f, switches, owners, gws), rank) && i < |now|
    requires TakenBelow(f.protocol, protos, switches) && TakenBelow(f.vtep, vteps, owners)
    ensures FreshAt(protos, GatewayProtos(now), i) && FreshAt(vteps, GatewayVteps(now), i)
  {
    GatewayAlone(f, switches, owners, gws[rank[i]], rank[i]);
    forall j | 0 <= j < i
      ensures GatewayProtos(now)[j].Cidr? && GatewayProtos(now)[i].Cidr? ==> GatewayProtos(now)[j].addr != GatewayProtos(now)[i].addr
      ensures GatewayVteps(now)[j].Cidr? && GatewayVteps(now)[i].Cidr? ==> GatewayVteps(now)[j].addr != GatewayVteps(now)[i].addr
    {
      assert rank[i] != rank[j];
      GatewayAlone(f, switches, owners, gws[rank[j]], rank[j]);
    }
  }

  /** The checker accepts the assigned gateways and finds them set iff both pools hold them behind the switches. */
  lemma {:induction false} GatewaysIff(f: FabConfig, switches: nat, owners: nat, gws: seq<Gateway>, now: seq<Gateway>, rank: seq<nat>,
                    protos: set<U32>, vteps: set<U32>)
    requires Ranks(now, AssignedGateways(f, switches, owners, gws), rank)
    requires TakenBelow(f.protocol, protos, switches) && TakenBelow(f.vtep, vteps, owners)
    ensures GatewaysSound(f, protos, vteps, now) && GatewaysSet(now) <==> GatewaysFit(f, switches, owners, |gws|)
  {
    if GatewaysSound(f, protos, vteps, now) && GatewaysSet(now) && |gws| > 0 {
      var last := |gws| - 1;
      var i := RankReaches(now, AssignedGateways(f, switches, owners, gws), rank, last);
      assert GatewaySoundAt(f, protos, vteps, now, i);
      assert now[i] == AssignedGateway(f, switches, owners, gws[last], last);
      GatewayAlone(f, switches, owners, gws[last], last);
    }
    if GatewaysFit(f, switches, owners, |gws|) {
      forall i | 0 <= i < |now|
        ensures GatewaySoundAt(f, protos, vteps, now, i) && GatewaysSet([now[i]])
      {
        GatewayAlone(f, switches, owners, gws[rank[i]], rank[i]);
        GatewayFresh(f, switches, owners, gws, now, rank, protos, vteps, i);
      }
      assert forall i :: 0 <= i < |now| ==> [now[i]][0] == now[i];
    }
  }
}
