/** What the pool's rings hold in every run, and when the ring reaches the clients. */
module Routing {
  import opened HashRing
  import opened Registry
  import opened Pool

  ghost function Tagged(s: Pool, az: string): set<string> {
    set a | a in s.addrToAz && s.addrToAz[a] == az
  }

  /** Only these addresses are ever added. */
  ghost predicate Added(ops: seq<Change>, nodes: set<string>) {
    forall op :: op in ops && op.AddOp? ==> op.ep.addr in nodes
  }

  /** The global ring is that of the clients, each AZ ring that of the clients tagged with the AZ. */
  ghost predicate RingsFit(hash: Hash, s: Pool) {
    && IsRingOf(hash, 200, s.ring, s.clients)
    && (forall az {:trigger AzFits(hash, s, az)} :: AzFits(hash, s, az))
    && (forall a :: a in s.addrToAz ==> s.addrToAz[a] != "" && s.addrToAz[a] in s.ringByAz)
  }

  ghost predicate AzFits(hash: Hash, s: Pool, az: string) {
    az in s.ringByAz ==> IsRingOf(hash, 200, s.ringByAz[az], Tagged(s, az))
  }

  lemma AddFitsAz(hash: Hash, s: Pool, ep: Endpoint, az: string, nodes: set<string>, z: string)
    requires CollisionFree(hash, 200, nodes) && s.clients <= nodes && ep.addr in nodes && Agree(s) && RingsFit(hash, s)
    requires ep.addr !in s.clients
    ensures AzFits(hash, AddEndpoint(hash, s, ep, az), z)
  {
    var s' := AddEndpoint(hash, s, ep, az);
    assert AzFits(hash, s, z);
    if z == az && az != "" {
      var azRing := if az in s.ringByAz then s.ringByAz[az] else map[];
      assert Tagged(s', az) == Tagged(s, az) + {ep.addr};
      assert az !in s.ringByAz ==> Tagged(s, az) == {};
      AddKeeps(hash, 200, azRing, Tagged(s, az), ep.addr, nodes);
    } else {
      assert Tagged(s', z) == Tagged(s, z);
    }
  }

  lemma AddFits(hash: Hash, s: Pool, ep: Endpoint, az: string, nodes: set<string>)
    requires CollisionFree(hash, 200, nodes) && s.clients <= nodes && ep.addr in nodes && Agree(s) && RingsFit(hash, s)
    ensures RingsFit(hash, AddEndpoint(hash, s, ep, az))
  {
    if ep.addr !in s.clients {
      AddKeeps(hash, 200, s.ring, s.clients, ep.addr, nodes);
      forall z ensures AzFits(hash, AddEndpoint(hash, s, ep, az), z) {
        AddFitsAz(hash, s, ep, az, nodes, z);
      }
    }
  }

  lemma RemoveFitsAz(hash: Hash, s: Pool, id: string, z: string)
    requires Agree(s) && RingsFit(hash, s) && id in s.instanceToAddr
    ensures AzFits(hash, RemoveEndpoint(s, id), z)
  {
    var s', addr := RemoveEndpoint(s, id), s.instanceToAddr[id];
    assert AzFits(hash, s, z);
    if z in s.ringByAz {
      assert Tagged(s', z) == Tagged(s, z) - {addr};
      if addr in Tagged(s, z) {
        RemoveKeeps(hash, 200, s.ringByAz[z], Tagged(s, z), addr);
      } else {
        assert Tagged(s', z) == Tagged(s, z) && s'.ringByAz[z] == s.ringByAz[z];
      }
    }
  }

  lemma RemoveFits(hash: Hash, s: Pool, id: string)
    requires Agree(s) && RingsFit(hash, s)
    ensures RingsFit(hash, RemoveEndpoint(s, id))
  {
    if id in s.instanceToAddr {
      var s', addr := RemoveEndpoint(s, id), s.instanceToAddr[id];
      RemoveKeeps(hash, 200, s.ring, s.clients, addr);
      assert s'.ring == HashRing.Without(s.ring, addr) && s'.clients == s.clients - {addr};
      forall z ensures AzFits(hash, s', z) {
        RemoveFitsAz(hash, s, id, z);
      }
    }
  }

  /** In every run whose addresses do not collide, the rings are those of the clients and of the clients of each AZ. */
  lemma {:induction false} RingsAreOfClients(hash: Hash, ops: seq<Change>, nodes: set<string>)
    requires CollisionFree(hash, 200, nodes) && Added(ops, nodes)
    ensures var s := Run(hash, NO_CLIENTS, ops);
            s.clients <= nodes && Agree(s) && RingsFit(hash, s)
    decreases |ops|
  {
    if ops != [] {
      var front, op := ops[..|ops| - 1], ops[|ops| - 1];
      assert op in ops;
      RingsAreOfClients(hash, front, nodes);
      RunKeepsAgreement(hash, NO_CLIENTS, ops);
      var s := Run(hash, NO_CLIENTS, front);
      if op.AddOp? { AddFits(hash, s, op.ep, op.az, nodes); } else { RemoveFits(hash, s, op.id); }
    }
  }

  /** Gateways with the same clients and tags ask the same client about a key, whatever their histories. */
  lemma SameClientsSameRoute(hash: Hash, nodes: set<string>, ops: seq<Change>, ops': seq<Change>, localAz: string, routingKey: string)
    requires CollisionFree(hash, 200, nodes) && Added(ops, nodes) && Added(ops', nodes)
    requires var s, s' := Run(hash, NO_CLIENTS, ops), Run(hash, NO_CLIENTS, ops');
             s.clients == s'.clients && s.addrToAz == s'.addrToAz
    ensures Primary(hash, Run(hash, NO_CLIENTS, ops), localAz, routingKey) == Primary(hash, Run(hash, NO_CLIENTS, ops'), localAz, routingKey)
  {
    var s, s' := Run(hash, NO_CLIENTS, ops), Run(hash, NO_CLIENTS, ops');
    RingsAreOfClients(hash, ops, nodes);
    RingsAreOfClients(hash, ops', nodes);
    SameMembersSameRing(hash, 200, s.ring, s'.ring, s.clients);
    assert AzFits(hash, s, localAz) && AzFits(hash, s', localAz);
    NearIs(hash, s, localAz, routingKey);
    NearIs(hash, s', localAz, routingKey);
    assert Tagged(s, localAz) == Tagged(s', localAz);
    if localAz in s.ringByAz && localAz in s'.ringByAz {
      SameMembersSameRing(hash, 200, s.ringByAz[localAz], s'.ringByAz[localAz], Tagged(s, localAz));
    }
  }

  lemma NearIs(hash: Hash, s: Pool, localAz: string, routingKey: string)
    requires RingsFit(hash, s) && AzFits(hash, s, localAz)
    ensures Tagged(s, localAz) == {} ==> Near(hash, s, localAz, routingKey) == ""
    ensures Tagged(s, localAz) != {} ==> localAz != "" && localAz in s.ringByAz && IsRingOf(hash, 200, s.ringByAz[localAz], Tagged(s, localAz))
  {
    if Tagged(s, localAz) == {} && localAz in s.ringByAz {
      assert s.ringByAz[localAz].Keys == {};
    } else if Tagged(s, localAz) != {} {
      var a :| a in Tagged(s, localAz);
      assert s.addrToAz[a] in s.ringByAz;
    }
  }

  /** No place on the ring lies clockwise nearer to h than k. */
  ghost predicate Nearest(ring: Ring, h: U64, k: U64) {
    k in ring && forall x :: x in ring ==> Clockwise(h, k) <= Clockwise(h, x)
  }

  lemma LookupIsNearest(ring: Ring, h: U64) returns (k: U64)
    requires ring != map[]
    ensures Nearest(ring, h, k) && Lookup(ring, h) == ring[k]
  {
    assert ring.Keys != {};
    k := Owner(ring.Keys, h);
    forall x | x in ring ensures Clockwise(h, k) <= Clockwise(h, x) {
      OwnerIsNearest(ring.Keys, h, x);
    }
  }

  /** The ring of the local AZ comes first: its clockwise nearest address is asked, unless the ring or the address is empty;
      then it is the nearest on the global ring. */
  lemma LocalRingFirst(hash: Hash, s: Pool, localAz: string, routingKey: string)
    ensures localAz != "" && localAz in s.ringByAz && s.ringByAz[localAz] != map[] ==>
      exists k :: Nearest(s.ringByAz[localAz], hash(routingKey), k) &&
        (s.ringByAz[localAz][k] != "" ==> Primary(hash, s, localAz, routingKey) == s.ringByAz[localAz][k])
    ensures s.ring != map[] && (localAz == "" || localAz !in s.ringByAz || forall k :: k in s.ringByAz[localAz] ==> s.ringByAz[localAz][k] == "") ==>
      exists k :: Nearest(s.ring, hash(routingKey), k) && Primary(hash, s, localAz, routingKey) == s.ring[k]
  {
    if localAz != "" && localAz in s.ringByAz && s.ringByAz[localAz] != map[] {
      var k := LookupIsNearest(s.ringByAz[localAz], hash(routingKey));
    }
    if s.ring != map[] {
      var k := LookupIsNearest(s.ring, hash(routingKey));
    }
  }

  // ----- when the ring reaches the clients: the exact condition on the hash -----

  /** Label i of a shares its hash with no label of another node. */
  ghost predicate Own(hash: Hash, nodes: set<string>, a: string, i: int) {
    0 <= i < 200 && forall b, j :: b in nodes && 0 <= j < 200 && hash(Label(b, j)) == hash(Label(a, i)) ==> b == a
  }

  ghost predicate HasOwnLabel(hash: Hash, nodes: set<string>, a: string) {
    exists i :: Own(hash, nodes, a, i)
  }

  lemma CollisionFreeIsEnough(hash: Hash, nodes: set<string>, a: string)
    requires CollisionFree(hash, 200, nodes) && a in nodes
    ensures HasOwnLabel(hash, nodes, a)
  {
    assert Own(hash, nodes, a, 0);
  }

  ghost predicate OwnKept(hash: Hash, s: Pool, nodes: set<string>) {
    && s.clients <= nodes
    && forall a, i {:trigger Own(hash, nodes, a, i)} :: a in s.clients && Own(hash, nodes, a, i) ==> Maps(s.ring, hash(Label(a, i)), a)
  }

  lemma AddKeepsOwn(hash: Hash, s: Pool, ep: Endpoint, az: string, nodes: set<string>)
    requires OwnKept(hash, s, nodes) && ep.addr in nodes
    ensures OwnKept(hash, AddEndpoint(hash, s, ep, az), nodes)
  {
    var s' := AddEndpoint(hash, s, ep, az);
    forall a, i | a in s'.clients && Own(hash, nodes, a, i) ensures Maps(s'.ring, hash(Label(a, i)), a) {
      if ep.addr !in s.clients {
        AddUpToIs(hash, s.ring, ep.addr, VIRTUAL_NODES, hash(Label(a, i)));
      }
    }
  }

  lemma {:induction false} RunKeepsOwn(hash: Hash, ops: seq<Change>, nodes: set<string>)
    requires Added(ops, nodes)
    ensures OwnKept(hash, Run(hash, NO_CLIENTS, ops), nodes)
    decreases |ops|
  {
    if ops != [] {
      var front, op := ops[..|ops| - 1], ops[|ops| - 1];
      assert op in ops;
      RunKeepsOwn(hash, front, nodes);
      if op.AddOp? {
        AddKeepsOwn(hash, Run(hash, NO_CLIENTS, front), op.ep, op.az, nodes);
      }
    }
  }

  /** a and the others are clients, nothing is tagged, and a is left no place that a label of one of the others falls on. */
  ghost predicate Crowded(hash: Hash, s: Pool, a: string, others: set<string>, all: set<string>) {
    && s.clients == {a} + others && s.addrToAz == map[]
    && (forall b :: b in s.clients ==> b in s.instanceToAddr && s.instanceToAddr[b] == b)
    && (forall k :: Maps(s.ring, k, a) ==> exists i :: 0 <= i < 200 && hash(Label(a, i)) == k)
    && forall k, b, j :: Maps(s.ring, k, a) && b in all && 0 <= j < 200 ==> hash(Label(b, j)) != k
  }

  function Arrives(a: string): Change {
    AddOp(Endpoint(a, "logic", a, 1), "")
  }

  lemma FirstArrives(hash: Hash, a: string)
    ensures Crowded(hash, Run(hash, NO_CLIENTS, [Arrives(a)]), a, {}, {})
  {
    var s := Run(hash, NO_CLIENTS, [Arrives(a)]);
    assert [Arrives(a)][..0] == [];
    assert Run(hash, NO_CLIENTS, []) == NO_CLIENTS;
    assert s == AddEndpoint(hash, NO_CLIENTS, Arrives(a).ep, "");
    forall k | Maps(s.ring, k, a) ensures exists i :: 0 <= i < 200 && hash(Label(a, i)) == k {
      AddUpToIs(hash, map[], a, VIRTUAL_NODES, k);
    }
  }

  lemma NextArrives(hash: Hash, s: Pool, a: string, others: set<string>, b: string)
    requires Crowded(hash, s, a, others, others) && b !in others && b != a
    ensures Crowded(hash, AddEndpoint(hash, s, Arrives(b).ep, ""), a, others + {b}, others + {b})
  {
    var s' := AddEndpoint(hash, s, Arrives(b).ep, "");
    forall k | Maps(s'.ring, k, a)
      ensures Maps(s.ring, k, a) && forall j :: 0 <= j < 200 ==> hash(Label(b, j)) != k
    {
      AddUpToIs(hash, s.ring, b, VIRTUAL_NODES, k);
    }
  }

  lemma {:induction false} AllArrive(hash: Hash, a: string, others: set<string>) returns (ops: seq<Change>)
    requires a !in others
    ensures Added(ops, {a} + others) && Crowded(hash, Run(hash, NO_CLIENTS, ops), a, others, others)
    decreases |others|
  {
    if others == {} {
      ops := [Arrives(a)];
      FirstArrives(hash, a);
    } else {
      var b :| b in others;
      var front := AllArrive(hash, a, others - {b});
      ops := front + [Arrives(b)];
      assert ops[..|ops| - 1] == front;
      NextArrives(hash, Run(hash, NO_CLIENTS, front), a, others - {b}, b);
      assert others - {b} + {b} == others;
    }
  }

  lemma NextLeaves(hash: Hash, s: Pool, a: string, others: set<string>, all: set<string>, b: string)
    requires Crowded(hash, s, a, others, all) && b in others && b != a
    ensures Crowded(hash, RemoveEndpoint(s, b), a, others - {b}, all)
  {
    assert b in s.clients && s.instanceToAddr[b] == b;
    var s' := RemoveEndpoint(s, b);
    assert s'.clients == {a} + (others - {b}) && s'.instanceToAddr == s.instanceToAddr - {b};
    assert s'.ring == HashRing.Without(s.ring, b);
    forall k | Maps(s'.ring, k, a) ensures Maps(s.ring, k, a) {
    }
  }

  lemma {:induction false} AllLeave(hash: Hash, ops: seq<Change>, a: string, others: set<string>, all: set<string>) returns (ops': seq<Change>)
    requires a !in others && Added(ops, {a} + all) && Crowded(hash, Run(hash, NO_CLIENTS, ops), a, others, all)
    ensures Added(ops', {a} + all) && Crowded(hash, Run(hash, NO_CLIENTS, ops'), a, {}, all)
    decreases |others|
  {
    if others == {} {
      ops' := ops;
    } else {
      var b :| b in others;
      var more := ops + [RemoveOp(b)];
      assert more[..|more| - 1] == ops;
      NextLeaves(hash, Run(hash, NO_CLIENTS, ops), a, others, all, b);
      ops' := AllLeave(hash, more, a, others - {b}, all);
    }
  }

  /** All others come and go: a keeps its client and loses its last place on the ring. */
  lemma CrowdedOut(hash: Hash, nodes: set<string>, a: string) returns (ops: seq<Change>)
    requires a in nodes && !HasOwnLabel(hash, nodes, a)
    ensures Added(ops, nodes)
    ensures var s := Run(hash, NO_CLIENTS, ops); s.clients == {a} && s.ring == map[] && s.addrToAz == map[]
  {
    var others := nodes - {a};
    assert {a} + others == nodes;
    var all := AllArrive(hash, a, others);
    ops := AllLeave(hash, all, a, others, others);
    RunKeepsAgreement(hash, NO_CLIENTS, ops);
    var s := Run(hash, NO_CLIENTS, ops);
    if k :| k in s.ring {
      assert Maps(s.ring, k, a);
      var i :| 0 <= i < 200 && hash(Label(a, i)) == k;
      assert Own(hash, nodes, a, i);
    }
  }

  /** In every run over these addresses the ring is empty only if there is no client. */
  ghost predicate AlwaysReachable(hash: Hash, nodes: set<string>) {
    forall ops :: Added(ops, nodes) ==> (Run(hash, NO_CLIENTS, ops).ring == map[] ==> Run(hash, NO_CLIENTS, ops).clients == {})
  }

  lemma NobodyWithoutRing(hash: Hash, s: Pool, nodes: set<string>)
    requires OwnKept(hash, s, nodes) && forall a :: a in nodes ==> HasOwnLabel(hash, nodes, a)
    ensures s.clients != {} ==> s.ring != map[]
  {
    if a :| a in s.clients {
      var i :| Own(hash, nodes, a, i);
      assert Maps(s.ring, hash(Label(a, i)), a);
    }
  }

  /** A pool with clients always has a ring to ask if and only if every address has a label of its own. */
  lemma AlwaysReachableIff(hash: Hash, nodes: set<string>)
    ensures AlwaysReachable(hash, nodes) <==> forall a :: a in nodes ==> HasOwnLabel(hash, nodes, a)
  {
    if forall a :: a in nodes ==> HasOwnLabel(hash, nodes, a) {
      forall ops | Added(ops, nodes) && Run(hash, NO_CLIENTS, ops).ring == map[] ensures Run(hash, NO_CLIENTS, ops).clients == {} {
        RunKeepsOwn(hash, ops, nodes);
        NobodyWithoutRing(hash, Run(hash, NO_CLIENTS, ops), nodes);
      }
    } else {
      var a :| a in nodes && !HasOwnLabel(hash, nodes, a);
      var ops := CrowdedOut(hash, nodes, a);
      assert Run(hash, NO_CLIENTS, ops).clients != {};
    }
  }

  /** So if every address has a label of its own, a message is given up untried if and only if there is no client. */
  lemma UntriedIffNoClient(hash: Hash, nodes: set<string>, ops: seq<Change>, localAz: string, routingKey: string)
    requires Added(ops, nodes) && forall a :: a in nodes ==> HasOwnLabel(hash, nodes, a)
    ensures NoNode(hash, Run(hash, NO_CLIENTS, ops), localAz, routingKey) <==> Run(hash, NO_CLIENTS, ops).clients == {}
  {
    var s := Run(hash, NO_CLIENTS, ops);
    AlwaysReachableIff(hash, nodes);
    RunKeepsAgreement(hash, NO_CLIENTS, ops);
    if s.clients == {} {
      assert s.ring.Keys == {};
      if localAz in s.ringByAz {
        assert AzRingOk(s, localAz, s.ringByAz[localAz]);
        assert s.ringByAz[localAz].Keys == {};
      }
    }
  }
}
