/** The gateway's pool of logic clients, src/gateway/LogicClientPool.h: five indexes that must agree. */
module Pool {
  import opened Decimal
  import opened HashRing
  import opened Registry

  /** clients is keyed by address; a client knows nothing else that matters here. */
  datatype Pool = Pool(
    clients: set<string>,
    instanceToAddr: map<string, string>,
    ring: Ring,
    addrToAz: map<string, string>,
    ringByAz: map<string, Ring>)

  const NO_CLIENTS := Pool({}, map[], map[], map[], map[])
  const VIRTUAL_NODES := 200

  function AddEndpoint(hash: Hash, s: Pool, ep: Endpoint, az: string): Pool {
    if ep.addr in s.clients then s
    else
      var s' := s.(clients := s.clients + {ep.addr},
                   instanceToAddr := s.instanceToAddr[ep.instanceId := ep.addr],
                   ring := AddUpTo(hash, s.ring, ep.addr, VIRTUAL_NODES));
      if az == "" then s'
      else
        var azRing := if az in s.ringByAz then s.ringByAz[az] else map[];
        s'.(ringByAz := s.ringByAz[az := AddUpTo(hash, azRing, ep.addr, VIRTUAL_NODES)],
            addrToAz := s.addrToAz[ep.addr := az])
  }

  function RemoveEndpoint(s: Pool, id: string): Pool {
    if id !in s.instanceToAddr then s
    else
      var addr := s.instanceToAddr[id];
      var s' := s.(instanceToAddr := s.instanceToAddr - {id});
      if addr !in s.clients then s'
      else
        var s'' := s'.(clients := s.clients - {addr}, ring := HashRing.Without(s.ring, addr));
        if addr !in s.addrToAz then s''
        else
          var az := s.addrToAz[addr];
          s''.(addrToAz := s.addrToAz - {addr},
               ringByAz := if az in s.ringByAz then s.ringByAz[az := HashRing.Without(s.ringByAz[az], addr)] else s.ringByAz)
  }

  // ----- agreement of the indexes -----

  ghost predicate RingOk(s: Pool, ring: Ring) {
    forall k :: k in ring ==> ring[k] in s.clients
  }

  ghost predicate AzRingOk(s: Pool, az: string, ring: Ring) {
    forall k :: k in ring ==> ring[k] in s.clients && ring[k] in s.addrToAz && s.addrToAz[ring[k]] == az
  }

  ghost predicate Agree(s: Pool) {
    && (forall i :: i in s.instanceToAddr ==> s.instanceToAddr[i] in s.clients)
    && (forall i, j :: i in s.instanceToAddr && j in s.instanceToAddr && s.instanceToAddr[i] == s.instanceToAddr[j] ==> i == j)
    && RingOk(s, s.ring)
    && s.addrToAz.Keys <= s.clients
    && (forall az :: az in s.ringByAz ==> AzRingOk(s, az, s.ringByAz[az]))
  }

  lemma AddedValues(hash: Hash, ring: Ring, addr: string, k: U64)
    requires k in AddUpTo(hash, ring, addr, VIRTUAL_NODES)
    ensures AddUpTo(hash, ring, addr, VIRTUAL_NODES)[k] == addr
         || (k in ring && AddUpTo(hash, ring, addr, VIRTUAL_NODES)[k] == ring[k])
  {
    AddUpToIs(hash, ring, addr, VIRTUAL_NODES, k);
  }

  lemma AddKeepsAgreement(hash: Hash, s: Pool, ep: Endpoint, az: string)
    requires Agree(s)
    ensures Agree(AddEndpoint(hash, s, ep, az))
  {
    if ep.addr !in s.clients {
      var s' := AddEndpoint(hash, s, ep, az);
      forall k | k in s'.ring ensures s'.ring[k] in s'.clients { AddedValues(hash, s.ring, ep.addr, k); }
      forall z | z in s'.ringByAz ensures AzRingOk(s', z, s'.ringByAz[z]) {
        if z == az && az != "" {
          var azRing := if az in s.ringByAz then s.ringByAz[az] else map[];
          forall k | k in s'.ringByAz[z]
            ensures var a := s'.ringByAz[z][k]; a in s'.clients && a in s'.addrToAz && s'.addrToAz[a] == z
          {
            AddedValues(hash, azRing, ep.addr, k);
          }
        } else {
          assert AzRingOk(s, z, s.ringByAz[z]);
        }
      }
    }
  }

  lemma RemoveKeepsAgreement(s: Pool, id: string)
    requires Agree(s)
    ensures Agree(RemoveEndpoint(s, id))
  {
    var s' := RemoveEndpoint(s, id);
    forall z | z in s'.ringByAz ensures AzRingOk(s', z, s'.ringByAz[z]) {
      assert AzRingOk(s, z, s.ringByAz[z]);
    }
  }

  lemma RemovedIsOffTheRings(s: Pool, id: string)
    requires Agree(s) && id in s.instanceToAddr
    ensures var s' := RemoveEndpoint(s, id);
            forall az, k :: az in s'.ringByAz && k in s'.ringByAz[az] ==> s'.ringByAz[az][k] != s.instanceToAddr[id]
  {
    RemoveKeepsAgreement(s, id);
    var s' := RemoveEndpoint(s, id);
    forall az, k | az in s'.ringByAz && k in s'.ringByAz[az] ensures s'.ringByAz[az][k] != s.instanceToAddr[id] {
      assert AzRingOk(s', az, s'.ringByAz[az]);
    }
  }

  datatype Change = AddOp(ep: Endpoint, az: string) | RemoveOp(id: string)

  function Run(hash: Hash, s: Pool, ops: seq<Change>): Pool {
    if ops == [] then s
    else
      var s', op := Run(hash, s, ops[..|ops| - 1]), ops[|ops| - 1];
      if op.AddOp? then AddEndpoint(hash, s', op.ep, op.az) else RemoveEndpoint(s', op.id)
  }

  /** Every run of endpoint events keeps the indexes in agreement. */
  lemma {:induction false} RunKeepsAgreement(hash: Hash, s: Pool, ops: seq<Change>)
    requires Agree(s)
    ensures Agree(Run(hash, s, ops))
    decreases |ops|
  {
    if ops != [] {
      RunKeepsAgreement(hash, s, ops[..|ops| - 1]);
      var s', op := Run(hash, s, ops[..|ops| - 1]), ops[|ops| - 1];
      if op.AddOp? { AddKeepsAgreement(hash, s', op.ep, op.az); } else { RemoveKeepsAgreement(s', op.id); }
    }
  }

  // ----- routing -----

  datatype Status = Ok | Unavailable | DeadlineExceeded | OtherError

  function Retryable(st: Status): bool {
    st == Unavailable || st == DeadlineExceeded
  }

  /** The answer of the local AZ ring, empty if there is none. */
  ghost function Near(hash: Hash, s: Pool, localAz: string, routingKey: string): string {
    if localAz != "" && localAz in s.ringByAz then Lookup(s.ringByAz[localAz], hash(routingKey)) else ""
  }

  /** The same-AZ ring first, the global ring otherwise. */
  ghost function Primary(hash: Hash, s: Pool, localAz: string, routingKey: string): string {
    if Near(hash, s, localAz, routingKey) != "" then Near(hash, s, localAz, routingKey) else Lookup(s.ring, hash(routingKey))
  }

  ghost predicate NoNode(hash: Hash, s: Pool, localAz: string, routingKey: string) {
    Near(hash, s, localAz, routingKey) == "" && s.ring == map[]
  }

  /** The node a ring answers with has a client: the branch "no client for ..." is dead. */
  lemma PrimaryHasClient(hash: Hash, s: Pool, localAz: string, routingKey: string)
    requires Agree(s)
    ensures !NoNode(hash, s, localAz, routingKey) ==> Primary(hash, s, localAz, routingKey) in s.clients
    ensures Near(hash, s, localAz, routingKey) != "" ==> InAz(s, localAz, Primary(hash, s, localAz, routingKey))
  {
    if localAz in s.ringByAz {
      assert AzRingOk(s, localAz, s.ringByAz[localAz]);
    }
  }

  /** A client that may take over from the address that failed. */
  ghost predicate CanBackUp(s: Pool, healthy: string -> bool, failed: string, addr: string) {
    addr in s.clients && addr != failed && healthy(addr)
  }

  ghost predicate InAz(s: Pool, az: string, addr: string) {
    az != "" && addr in s.addrToAz && s.addrToAz[addr] == az
  }

  class LogicClientPool {
    const hash: Hash
    var clients: set<string>
    var instanceToAddr: map<string, string>
    var ring: Ring
    var addrToAz: map<string, string>
    var ringByAz: map<string, Ring>
    var localAz: string

    ghost function S(): Pool
      reads this
    {
      Pool(clients, instanceToAddr, ring, addrToAz, ringByAz)
    }

    constructor (hash: Hash, localAz: string)
      ensures S() == NO_CLIENTS && this.hash == hash && this.localAz == localAz
    {
      this.hash, this.localAz := hash, localAz;
      clients, instanceToAddr, ring, addrToAz, ringByAz := {}, map[], map[], map[], map[];
    }

    /** A new address gets a client, its instance, and a place on the global ring, and on that of its AZ, for each of its
        200 virtual nodes; a known one changes nothing. */
    method Add(ep: Endpoint, az: string)
      modifies this
      ensures S() == AddEndpoint(hash, old(S()), ep, az) && localAz == old(localAz)
      ensures old(Agree(S())) ==> Agree(S())
      ensures ep.addr in old(clients) ==> S() == old(S())
      ensures ep.addr !in old(clients) ==> clients == old(clients) + {ep.addr} && instanceToAddr == old(instanceToAddr)[ep.instanceId := ep.addr]
      ensures ep.addr !in old(clients) ==> forall i :: 0 <= i < 200 ==> Maps(ring, hash(ep.addr + "#" + ToDecimal(i)), ep.addr)
      ensures ep.addr !in old(clients) && az != "" ==> addrToAz == old(addrToAz)[ep.addr := az] && az in ringByAz
      ensures ep.addr !in old(clients) && az != "" ==> forall i :: 0 <= i < 200 ==> Maps(ringByAz[az], hash(ep.addr + "#" + ToDecimal(i)), ep.addr)
    {
      AddedLabels(hash, ring, ep.addr, VIRTUAL_NODES);
      AddedLabels(hash, if az in ringByAz then ringByAz[az] else map[], ep.addr, VIRTUAL_NODES);
      if old(Agree(S())) { AddKeepsAgreement(hash, S(), ep, az); }
      if ep.addr in clients { return; }
      clients := clients + {ep.addr};
      instanceToAddr := instanceToAddr[ep.instanceId := ep.addr];
      ring := AddUpTo(hash, ring, ep.addr, VIRTUAL_NODES);
      if az != "" {
        var azRing := if az in ringByAz then ringByAz[az] else map[];
        ringByAz := ringByAz[az := AddUpTo(hash, azRing, ep.addr, VIRTUAL_NODES)];
        addrToAz := addrToAz[ep.addr := az];
      }
    }

    /** The client of a known instance goes, with its places on the rings. */
    method Remove(id: string)
      modifies this
      ensures S() == RemoveEndpoint(old(S()), id) && localAz == old(localAz)
      ensures old(Agree(S())) ==> Agree(S())
      ensures id !in old(instanceToAddr) ==> S() == old(S())
      ensures id in old(instanceToAddr) ==> instanceToAddr == old(instanceToAddr) - {id} && clients == old(clients) - {old(instanceToAddr)[id]}
      ensures id in old(instanceToAddr) && old(Agree(S())) ==>
        var addr := old(instanceToAddr)[id];
        && (forall k :: k in ring <==> k in old(ring) && old(ring)[k] != addr)
        && (forall k :: k in ring ==> ring[k] == old(ring)[k])
        && (forall az, k :: az in ringByAz && k in ringByAz[az] ==> ringByAz[az][k] != addr)
    {
      if old(Agree(S())) { RemoveKeepsAgreement(S(), id); if id in instanceToAddr { RemovedIsOffTheRings(S(), id); } }
      if id !in instanceToAddr { return; }
      var addr := instanceToAddr[id];
      instanceToAddr := instanceToAddr - {id};
      if addr in clients {
        clients := clients - {addr};
        ring := HashRing.Without(ring, addr);
        if addr in addrToAz {
          var az := addrToAz[addr];
          if az in ringByAz {
            ringByAz := ringByAz[az := HashRing.Without(ringByAz[az], addr)];
          }
          addrToAz := addrToAz - {addr};
        }
      }
    }

    /** Other threads may add and remove endpoints while a call is out. */
    method Churn()
      requires Agree(S())
      modifies this
      ensures Agree(S()) && localAz == old(localAz)
    {
    }

    method PickPrimary(routingKey: string) returns (none: bool, addr: string)
      requires Agree(S())
      ensures none <==> NoNode(hash, S(), localAz, routingKey)
      ensures !none ==> addr == Primary(hash, S(), localAz, routingKey) && addr in clients
    {
      none, addr := false, "";
      if localAz != "" && localAz in ringByAz && ringByAz[localAz] != map[] {
        addr := Ask(ringByAz[localAz], routingKey);
      }
      PrimaryHasClient(hash, S(), localAz, routingKey);
      if addr == "" {
        if ring == map[] { return true, addr; }
        addr := Ask(ring, routingKey);
      }
    }

    method Ask(ring: Ring, routingKey: string) returns (addr: string)
      ensures addr == Lookup(ring, hash(routingKey))
    {
      var r := new ConsistentHashRing(hash, VIRTUAL_NODES);
      r.ring := ring;
      addr := r.Get(routingKey);
    }

    /** Walks the clients in hash-map order: a healthy one in the local AZ, else any healthy one, never the one that failed. */
    method PickBackup(healthy: string -> bool, failed: string) returns (found: bool, backup: string)
      ensures found ==> CanBackUp(S(), healthy, failed, backup) && backup in clients && backup != failed && healthy(backup)
      ensures !found ==> forall a :: a in clients && a != failed ==> !healthy(a)
      ensures found && (exists a :: CanBackUp(S(), healthy, failed, a) && InAz(S(), localAz, a)) ==> InAz(S(), localAz, backup)
    {
      found, backup := false, "";
      if localAz != "" {
        var left := clients;
        while left != {} && !found
          invariant left <= clients
          invariant !found ==> forall a :: CanBackUp(S(), healthy, failed, a) && InAz(S(), localAz, a) ==> a in left
          invariant found ==> CanBackUp(S(), healthy, failed, backup) && InAz(S(), localAz, backup)
          decreases left
        {
          var a :| a in left;
          left := left - {a};
          if a != failed && healthy(a) && a in addrToAz && addrToAz[a] == localAz {
            found, backup := true, a;
          }
        }
      }
      if !found {
        var left := clients;
        while left != {} && !found
          invariant left <= clients
          invariant !found ==> forall a :: a in clients && a != failed && healthy(a) ==> a in left
          invariant found ==> CanBackUp(S(), healthy, failed, backup)
          decreases left
        {
          var a :| a in left;
          left := left - {a};
          if a != failed && healthy(a) {
            found, backup := true, a;
          }
        }
      }
    }

    /** handleMessage: at most two attempts, at different addresses, both of clients in the pool; a second attempt only
        after a retryable failure, in the local AZ if that is possible. first and second are what the clients answer; later
        is the pool when the backup was chosen. */
    method HandleMessage(routingKey: string, healthy: string -> bool, first: Status, second: Status)
      returns (st: Status, tried: seq<string>, ghost later: Pool)
      requires Agree(S())
      modifies this
      ensures Agree(S()) && later == S()
      ensures |tried| <= 2 && (|tried| == 2 ==> tried[0] != tried[1])
      ensures tried == [] <==> NoNode(hash, old(S()), old(localAz), routingKey)
      ensures tried == [] ==> st == Unavailable
      ensures tried != [] ==> tried[0] == Primary(hash, old(S()), old(localAz), routingKey) && tried[0] in old(clients)
      ensures |tried| == 1 ==> st == first && (first == Unavailable || first == DeadlineExceeded ==> forall a :: a in later.clients && a != tried[0] ==> !healthy(a))
      ensures |tried| == 2 ==>
                && st == second && (first == Unavailable || first == DeadlineExceeded) && tried[1] in later.clients && healthy(tried[1])
                && ((exists a :: a in later.clients && a != tried[0] && healthy(a) && InAz(later, old(localAz), a)) ==>
                      tried[1] in later.addrToAz && later.addrToAz[tried[1]] == old(localAz))
    {
      st, tried, later := Unavailable, [], S();
      var none, primary := PickPrimary(routingKey);
      if none { return; }
      tried := [primary];
      st := first;
      if !Retryable(st) { return; }
      Churn();
      later := S();
      var found, backup := PickBackup(healthy, primary);
      if !found { return; }
      tried := [primary, backup];
      st := second;
    }
  }
}
