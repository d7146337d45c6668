/** The in-memory service registry of src/registry/RegistryServiceImpl.h: leases, expiry, watch queues. */
module Registry {
  import opened Pigeonhole

  datatype Endpoint = Endpoint(instanceId: string, service: string, addr: string, weight: int)
  datatype Kind = Added | Removed | Updated
  datatype WatchEvent = WatchEvent(kind: Kind, ep: Endpoint)

  /** One Watch stream: events still queued, and events already written to it. */
  datatype Watcher = Watcher(service: string, queue: seq<WatchEvent>, delivered: seq<WatchEvent>)

  datatype State = State(
    endpoints: map<string, Endpoint>,
    lastSeen: map<string, int>,
    leaseToInstance: map<int, string>,
    instanceToLease: map<string, int>,
    leaseSeq: nat,
    watchers: map<nat, Watcher>)

  const EMPTY := State(map[], map[], map[], map[], 0, map[])
  const TTL_SECONDS := 30
  const NANOS := 1_000_000_000

  /** duration_cast to seconds truncates toward zero. */
  function WholeSeconds(nanos: int): int {
    if nanos >= 0 then nanos / NANOS else -((-nanos) / NANOS)
  }

  function Matches(service: string, ep: Endpoint): bool {
    service == "" || service == ep.service
  }

  // ----- the operations on values -----

  function Notify(w: Watcher, ev: WatchEvent): Watcher {
    if Matches(w.service, ev.ep) then w.(queue := w.queue + [ev]) else w
  }

  function Broadcast(ws: map<nat, Watcher>, ev: WatchEvent): map<nat, Watcher> {
    map id | id in ws :: Notify(ws[id], ev)
  }

  function Register(s: State, ep: Endpoint, now: int): State {
    var id, lease := ep.instanceId, s.leaseSeq + 1;
    var cleared := if id in s.instanceToLease then s.leaseToInstance - {s.instanceToLease[id]} else s.leaseToInstance;
    State(s.endpoints[id := ep], s.lastSeen[id := now], cleared[lease := id], s.instanceToLease[id := lease], lease,
          Broadcast(s.watchers, WatchEvent(Added, ep)))
  }

  function Remove(s: State, id: string): State {
    if id !in s.endpoints then s
    else
      State(s.endpoints - {id}, s.lastSeen - {id},
            if id in s.instanceToLease then s.leaseToInstance - {s.instanceToLease[id]} else s.leaseToInstance,
            s.instanceToLease - {id}, s.leaseSeq,
            Broadcast(s.watchers, WatchEvent(Removed, s.endpoints[id])))
  }

  function KeepAlive(s: State, lease: int, now: int): State {
    if lease in s.leaseToInstance then s.(lastSeen := s.lastSeen[s.leaseToInstance[lease] := now]) else s
  }

  function Expired(s: State, now: int): set<string> {
    set id | id in s.lastSeen && WholeSeconds(now - s.lastSeen[id]) > TTL_SECONDS
  }

  /** The scan removes the expired instances one after the other, in whatever order the hash map yields them. */
  function RemoveAll(s: State, ids: seq<string>): State {
    if ids == [] then s else Remove(RemoveAll(s, ids[..|ids| - 1]), ids[|ids| - 1])
  }

  /** A new stream starts with one Added event per endpoint of the service. */
  function Snapshot(endpoints: map<string, Endpoint>, ids: seq<string>): seq<WatchEvent>
    requires forall id :: id in ids ==> id in endpoints
  {
    seq(|ids|, i requires 0 <= i < |ids| => assert ids[i] in ids; WatchEvent(Added, endpoints[ids[i]]))
  }

  function Selected(endpoints: map<string, Endpoint>, service: string): map<string, Endpoint> {
    map id | id in endpoints && Matches(service, endpoints[id]) :: endpoints[id]
  }

  // ----- runs -----

  datatype Event =
    | DoRegister(ep: Endpoint, now: int)
    | DoDeregister(id: string)
    | DoKeepAlive(lease: int, now: int)
    | DoScan(now: int, dead: seq<string>)
    | DoWatch(watcher: nat, service: string, order: seq<string>)
    | DoDeliver(watcher: nat)
    | DoCancel(watcher: nat)

  ghost predicate Lists<T(!new)>(s: seq<T>, all: set<T>) {
    NoDuplicates(s) && forall x :: x in s <==> x in all
  }

  ghost predicate Enabled(s: State, e: Event) {
    match e
    case DoScan(now, dead) => Lists(dead, Expired(s, now))
    case DoWatch(w, service, order) => w !in s.watchers && Lists(order, Selected(s.endpoints, service).Keys)
    case DoDeliver(w) => w in s.watchers && s.watchers[w].queue != []
    case DoCancel(w) => w in s.watchers
    case _ => true
  }

  ghost function Next(s: State, e: Event): State
    requires Enabled(s, e)
  {
    match e
    case DoRegister(ep, now) => Register(s, ep, now)
    case DoDeregister(id) => Remove(s, id)
    case DoKeepAlive(lease, now) => KeepAlive(s, lease, now)
    case DoScan(_, dead) => RemoveAll(s, dead)
    case DoWatch(w, service, order) =>
      s.(watchers := s.watchers[w := Watcher(service, Snapshot(s.endpoints, order), [])])
    case DoDeliver(w) =>
      var x := s.watchers[w];
      s.(watchers := s.watchers[w := x.(queue := x.queue[1..], delivered := x.delivered + [x.queue[0]])])
    case DoCancel(w) => s.(watchers := s.watchers - {w})
  }

  // ----- lease maps -----

  /** Endpoints, lastSeen and leases share one key set; the lease maps are inverse; no lease lies in the future. */
  ghost predicate LeasesOk(s: State) {
    && s.endpoints.Keys == s.lastSeen.Keys == s.instanceToLease.Keys
    && (forall id :: id in s.endpoints ==> s.endpoints[id].instanceId == id)
    && (forall id :: id in s.instanceToLease ==>
          s.instanceToLease[id] in s.leaseToInstance && s.leaseToInstance[s.instanceToLease[id]] == id)
    && (forall l :: l in s.leaseToInstance ==>
          0 < l <= s.leaseSeq && s.leaseToInstance[l] in s.instanceToLease && s.instanceToLease[s.leaseToInstance[l]] == l)
  }

  lemma RegisterKeepsLeases(s: State, ep: Endpoint, now: int)
    requires LeasesOk(s)
    ensures LeasesOk(Register(s, ep, now))
  {
  }

  lemma RemoveKeepsLeases(s: State, id: string)
    requires LeasesOk(s)
    ensures LeasesOk(Remove(s, id))
    ensures Remove(s, id).endpoints == s.endpoints - {id} && Remove(s, id).lastSeen == s.lastSeen - {id}
  {
  }

  ghost function Elems(ids: seq<string>): set<string> {
    set x | x in ids
  }

  lemma {:induction false} RemoveAllIs(s: State, ids: seq<string>)
    requires LeasesOk(s)
    ensures LeasesOk(RemoveAll(s, ids)) && RemoveAll(s, ids).leaseSeq == s.leaseSeq
    ensures RemoveAll(s, ids).endpoints == s.endpoints - Elems(ids)
    ensures RemoveAll(s, ids).lastSeen == s.lastSeen - Elems(ids)
    ensures forall l :: l in RemoveAll(s, ids).leaseToInstance ==> l in s.leaseToInstance
  {
    if ids != [] {
      var n := |ids| - 1;
      RemoveAllIs(s, ids[..n]);
      RemoveKeepsLeases(RemoveAll(s, ids[..n]), ids[n]);
      assert Elems(ids) == Elems(ids[..n]) + {ids[n]};
    }
  }

  lemma NextKeepsLeases(s: State, e: Event)
    requires LeasesOk(s) && Enabled(s, e)
    ensures LeasesOk(Next(s, e))
  {
    match e
    case DoRegister(ep, now) => RegisterKeepsLeases(s, ep, now);
    case DoDeregister(id) => RemoveKeepsLeases(s, id);
    case DoScan(_, dead) => RemoveAllIs(s, dead);
    case _ =>
  }

  /** A lease that was issued and is gone never comes back: ids are not reused. */
  lemma DeadLeaseStaysDead(s: State, e: Event, lease: int)
    requires LeasesOk(s) && Enabled(s, e) && lease <= s.leaseSeq && lease !in s.leaseToInstance
    ensures lease <= Next(s, e).leaseSeq && lease !in Next(s, e).leaseToInstance
  {
    if e.DoScan? { RemoveAllIs(s, e.dead); }
  }

  // ----- expiry -----

  /** A scan removes exactly the instances last seen 31 seconds ago or longer. */
  lemma ScanRemovesExactlyTheSilent(s: State, now: int, dead: seq<string>)
    requires LeasesOk(s) && Lists(dead, Expired(s, now))
    ensures forall id :: id in s.endpoints ==>
              (id in RemoveAll(s, dead).endpoints <==> now - s.lastSeen[id] < 31_000_000_000)
    ensures forall id :: id in RemoveAll(s, dead).endpoints ==>
              id in s.endpoints && RemoveAll(s, dead).endpoints[id] == s.endpoints[id]
  {
    RemoveAllIs(s, dead);
    forall id | id in s.endpoints ensures id in dead <==> now - s.lastSeen[id] >= 31_000_000_000 {
      assert id in Expired(s, now) <==> WholeSeconds(now - s.lastSeen[id]) > TTL_SECONDS;
      WholeSecondsAbove(now - s.lastSeen[id]);
    }
  }

  lemma WholeSecondsAbove(nanos: int)
    ensures WholeSeconds(nanos) > TTL_SECONDS <==> nanos >= 31_000_000_000
  {
  }

  // ----- watch streams -----

  /** What a client knows after these events. */
  function Replay(evs: seq<WatchEvent>): map<string, Endpoint> {
    if evs == [] then map[]
    else
      var m, ev := Replay(evs[..|evs| - 1]), evs[|evs| - 1];
      if ev.kind == Removed then m - {ev.ep.instanceId} else m[ev.ep.instanceId := ev.ep]
  }

  /** Delivered and queued events together describe the endpoints of the watched service. */
  ghost predicate InSync(endpoints: map<string, Endpoint>, w: Watcher) {
    Replay(w.delivered + w.queue) == Selected(endpoints, w.service)
  }

  lemma ReplaySnoc(evs: seq<WatchEvent>, ev: WatchEvent)
    ensures Replay(evs + [ev])
         == if ev.kind == Removed then Replay(evs) - {ev.ep.instanceId} else Replay(evs)[ev.ep.instanceId := ev.ep]
  {
    assert (evs + [ev])[..|evs|] == evs;
  }

  /** A registration keeps a stream in sync exactly if it does not take an instance away from the watched service:
      the code sends no Removed event for that. */
  lemma RegisterSyncExactly(endpoints: map<string, Endpoint>, w: Watcher, ep: Endpoint)
    requires InSync(endpoints, w)
    ensures InSync(endpoints[ep.instanceId := ep], Notify(w, WatchEvent(Added, ep))) <==>
            !(ep.instanceId in endpoints && Matches(w.service, endpoints[ep.instanceId]) && !Matches(w.service, ep))
  {
    var w' := Notify(w, WatchEvent(Added, ep));
    SelectedAfter(endpoints, w.service, ep);
    if Matches(w.service, ep) {
      assert w'.delivered + w'.queue == (w.delivered + w.queue) + [WatchEvent(Added, ep)];
      ReplaySnoc(w.delivered + w.queue, WatchEvent(Added, ep));
    } else {
      var before := Selected(endpoints, w.service);
      assert before - {ep.instanceId} == before <==> ep.instanceId !in before;
    }
  }

  lemma SelectedAfter(endpoints: map<string, Endpoint>, service: string, ep: Endpoint)
    ensures var before, after := Selected(endpoints, service), Selected(endpoints[ep.instanceId := ep], service);
            after == if Matches(service, ep) then before[ep.instanceId := ep] else before - {ep.instanceId}
  {
  }

  lemma RemoveSync(endpoints: map<string, Endpoint>, w: Watcher, id: string)
    requires InSync(endpoints, w) && id in endpoints && endpoints[id].instanceId == id
    ensures InSync(endpoints - {id}, Notify(w, WatchEvent(Removed, endpoints[id])))
  {
    var ev := WatchEvent(Removed, endpoints[id]);
    var w' := Notify(w, ev);
    assert Selected(endpoints - {id}, w.service) == Selected(endpoints, w.service) - {id};
    if Matches(w.service, ev.ep) {
      assert w'.delivered + w'.queue == (w.delivered + w.queue) + [ev];
      ReplaySnoc(w.delivered + w.queue, ev);
    }
  }

  lemma {:induction false} ReplaySnapshot(endpoints: map<string, Endpoint>, ids: seq<string>)
    requires (forall id :: id in ids ==> id in endpoints) && forall id :: id in endpoints ==> endpoints[id].instanceId == id
    ensures Replay(Snapshot(endpoints, ids)) == map id | id in endpoints && id in ids :: endpoints[id]
  {
    if ids != [] {
      var n := |ids| - 1;
      ReplaySnapshot(endpoints, ids[..n]);
      assert Snapshot(endpoints, ids) == Snapshot(endpoints, ids[..n]) + [WatchEvent(Added, endpoints[ids[n]])];
      ReplaySnoc(Snapshot(endpoints, ids[..n]), WatchEvent(Added, endpoints[ids[n]]));
      assert forall id :: id in ids <==> id in ids[..n] || id == ids[n];
    }
  }

  ghost predicate AllInSync(s: State) {
    forall w :: w in s.watchers ==> InSync(s.endpoints, s.watchers[w])
  }

  /** An instance id keeps its service. */
  ghost predicate KeepsService(s: State, e: Event) {
    e.DoRegister? && e.ep.instanceId in s.endpoints ==> s.endpoints[e.ep.instanceId].service == e.ep.service
  }

  lemma RemoveKeepsSync(s: State, id: string)
    requires LeasesOk(s) && AllInSync(s)
    ensures AllInSync(Remove(s, id))
  {
    if id in s.endpoints {
      forall w | w in s.watchers ensures InSync(s.endpoints - {id}, Notify(s.watchers[w], WatchEvent(Removed, s.endpoints[id]))) {
        RemoveSync(s.endpoints, s.watchers[w], id);
      }
    }
  }

  lemma {:induction false} RemoveAllKeepsSync(s: State, ids: seq<string>)
    requires LeasesOk(s) && AllInSync(s)
    ensures AllInSync(RemoveAll(s, ids))
  {
    if ids != [] {
      RemoveAllIs(s, ids[..|ids| - 1]);
      RemoveAllKeepsSync(s, ids[..|ids| - 1]);
      RemoveKeepsSync(RemoveAll(s, ids[..|ids| - 1]), ids[|ids| - 1]);
    }
  }

  lemma NextKeepsSync(s: State, e: Event)
    requires LeasesOk(s) && AllInSync(s) && Enabled(s, e) && KeepsService(s, e)
    ensures AllInSync(Next(s, e))
  {
    match e
    case DoRegister(ep, _) =>
      forall w | w in s.watchers ensures InSync(s.endpoints[ep.instanceId := ep], Notify(s.watchers[w], WatchEvent(Added, ep))) {
        RegisterSyncExactly(s.endpoints, s.watchers[w], ep);
      }
    case DoDeregister(id) => RemoveKeepsSync(s, id);
    case DoScan(_, dead) => RemoveAllKeepsSync(s, dead);
    case DoWatch(_, service, order) =>
      ReplaySnapshot(s.endpoints, order);
      assert [] + Snapshot(s.endpoints, order) == Snapshot(s.endpoints, order);
      assert Replay(Snapshot(s.endpoints, order)) == Selected(s.endpoints, service);
    case DoDeliver(w) =>
      var x := s.watchers[w];
      assert (x.delivered + [x.queue[0]]) + x.queue[1..] == x.delivered + x.queue;
    case _ =>
  }

  // ----- guarantees over every run -----

  ghost predicate Linked(run: seq<State>, es: seq<Event>, i: nat)
    requires i < |es| && |run| == |es| + 1
  {
    Enabled(run[i], es[i]) && Next(run[i], es[i]) == run[i + 1]
  }

  ghost predicate IsRun(run: seq<State>, es: seq<Event>) {
    && |run| == |es| + 1
    && forall i: nat {:trigger Linked(run, es, i)} :: i < |es| ==> Linked(run, es, i)
  }

  lemma {:induction false} LeasesAlwaysOk(run: seq<State>, es: seq<Event>, k: nat)
    requires IsRun(run, es) && LeasesOk(run[0]) && k < |run|
    ensures LeasesOk(run[k])
  {
    if k > 0 {
      LeasesAlwaysOk(run, es, k - 1);
      assert Linked(run, es, k - 1);
      NextKeepsLeases(run[k - 1], es[k - 1]);
    }
  }

  /** Every unbroken stream: events delivered and events queued replay to the current endpoints of its service. */
  lemma {:induction false} StreamsAlwaysInSync(run: seq<State>, es: seq<Event>, k: nat)
    requires IsRun(run, es) && run[0] == EMPTY && k < |run|
    requires forall i :: 0 <= i < |es| ==> KeepsService(run[i], es[i])
    ensures LeasesOk(run[k]) && AllInSync(run[k])
  {
    if k > 0 {
      StreamsAlwaysInSync(run, es, k - 1);
      assert Linked(run, es, k - 1);
      NextKeepsLeases(run[k - 1], es[k - 1]);
      NextKeepsSync(run[k - 1], es[k - 1]);
    }
  }

  ghost predicate Refreshes(s: State, e: Event, id: string) {
    || (e.DoRegister? && e.ep.instanceId == id)
    || (e.DoKeepAlive? && e.lease in s.leaseToInstance && s.leaseToInstance[e.lease] == id)
  }

  /** lastSeen is the time of the last refresh. */
  lemma LastSeenIsLastRefresh(s: State, e: Event, id: string)
    requires LeasesOk(s) && Enabled(s, e) && id in s.endpoints && id in Next(s, e).endpoints
    ensures id in Next(s, e).lastSeen
    ensures Next(s, e).lastSeen[id] == if Refreshes(s, e, id) then e.now else s.lastSeen[id]
  {
    if e.DoScan? { RemoveAllIs(s, e.dead); }
  }

  /** Some refresh of id among the first i events is at most 30 seconds older than now. */
  ghost predicate RecentlyRefreshed(run: seq<State>, es: seq<Event>, id: string, i: nat, now: int)
    requires |run| == |es| + 1 && i <= |es|
  {
    exists j :: 0 <= j < i && Refreshes(run[j], es[j], id) && now - es[j].now <= 30_000_000_000
  }

  /** The steady clock: refresh times of id do not decrease. */
  ghost predicate RefreshedInOrder(run: seq<State>, es: seq<Event>, id: string)
    requires |run| == |es| + 1
  {
    forall i, j :: 0 <= i < j < |es| && Refreshes(run[i], es[i], id) && Refreshes(run[j], es[j], id) ==> es[i].now <= es[j].now
  }

  /** The instance is there, and was last seen no earlier than at any refresh so far. */
  ghost predicate SeenSince(run: seq<State>, es: seq<Event>, id: string, k: nat)
    requires |run| == |es| + 1 && k <= |es|
  {
    && id in run[k].endpoints && id in run[k].lastSeen
    && forall j :: 0 <= j < k && Refreshes(run[j], es[j], id) ==> es[j].now <= run[k].lastSeen[id]
  }

  lemma {:induction false} SeenSinceRegistered(run: seq<State>, es: seq<Event>, id: string, k: nat)
    requires IsRun(run, es) && LeasesOk(run[0]) && 1 <= k <= |es|
    requires es[0].DoRegister? && es[0].ep.instanceId == id && forall i :: 0 <= i < |es| ==> es[i] != DoDeregister(id)
    requires RefreshedInOrder(run, es, id)
    requires forall i :: 0 < i < |es| && es[i].DoScan? ==> RecentlyRefreshed(run, es, id, i, es[i].now)
    ensures SeenSince(run, es, id, k)
  {
    assert Linked(run, es, k - 1);
    if k > 1 {
      var s, e := run[k - 1], es[k - 1];
      SeenSinceRegistered(run, es, id, k - 1);
      LeasesAlwaysOk(run, es, k - 1);
      if e.DoScan? {
        assert RecentlyRefreshed(run, es, id, k - 1, e.now);
        ScanRemovesExactlyTheSilent(s, e.now, e.dead);
      }
      LastSeenIsLastRefresh(s, e, id);
    }
  }

  /** An instance that registers, is not deregistered, and before every scan was refreshed, by registration or by a live
      lease, at most 30 seconds earlier, is never collected. */
  lemma RefreshedIsNeverCollected(run: seq<State>, es: seq<Event>, id: string, k: nat)
    requires IsRun(run, es) && LeasesOk(run[0]) && 1 <= k <= |es|
    requires es[0].DoRegister? && es[0].ep.instanceId == id && forall i :: 0 <= i < |es| ==> es[i] != DoDeregister(id)
    requires RefreshedInOrder(run, es, id)
    requires forall i :: 0 < i < |es| && es[i].DoScan? ==> RecentlyRefreshed(run, es, id, i, es[i].now)
    ensures id in run[k].endpoints
  {
    SeenSinceRegistered(run, es, id, k);
  }

  /** The time an instance was last seen is the time of one of its refreshes. */
  lemma {:induction false} LastSeenWasARefresh(run: seq<State>, es: seq<Event>, id: string, k: nat) returns (j: nat)
    requires IsRun(run, es) && run[0] == EMPTY && k < |run| && id in run[k].endpoints
    ensures j < k && Refreshes(run[j], es[j], id) && id in run[k].lastSeen && run[k].lastSeen[id] == es[j].now
  {
    LeasesAlwaysOk(run, es, k - 1);
    assert Linked(run, es, k - 1);
    var s, e := run[k - 1], es[k - 1];
    if id in s.endpoints {
      LastSeenIsLastRefresh(s, e, id);
    } else if e.DoScan? {
      RemoveAllIs(s, e.dead);
    }
    if Refreshes(s, e, id) {
      j := k - 1;
    } else {
      j := LastSeenWasARefresh(run, es, id, k - 1);
    }
  }

  /** An instance whose every refresh is 31 seconds old or older is gone after the next scan. */
  lemma SilentIsCollected(run: seq<State>, es: seq<Event>, id: string, i: nat)
    requires IsRun(run, es) && run[0] == EMPTY && i < |es| && es[i].DoScan?
    requires forall j :: 0 <= j < i && Refreshes(run[j], es[j], id) ==> es[i].now - es[j].now >= 31_000_000_000
    ensures id !in run[i + 1].endpoints
  {
    LeasesAlwaysOk(run, es, i);
    assert Linked(run, es, i);
    ScanRemovesExactlyTheSilent(run[i], es[i].now, es[i].dead);
    if id in run[i].endpoints {
      var j := LastSeenWasARefresh(run, es, id, i);
    }
  }

  /** Once an instance has registered again, its old lease refreshes nothing, forever. */
  lemma {:induction false} SupersededLeaseIsDead(run: seq<State>, es: seq<Event>, lease: int, k: nat, now: int)
    requires IsRun(run, es) && LeasesOk(run[0]) && lease in run[0].leaseToInstance
    requires es != [] && es[0].DoRegister? && es[0].ep.instanceId == run[0].leaseToInstance[lease]
    requires 1 <= k < |run|
    ensures lease <= run[k].leaseSeq && lease !in run[k].leaseToInstance && KeepAlive(run[k], lease, now) == run[k]
  {
    assert Linked(run, es, k - 1);
    if k > 1 {
      SupersededLeaseIsDead(run, es, lease, k - 1, now);
      LeasesAlwaysOk(run, es, k - 1);
      DeadLeaseStaysDead(run[k - 1], es[k - 1], lease);
    }
  }

  // ----- the service object -----

  datatype KeepAliveReply = KeepAliveReply(found: bool, ttlRemaining: int)

  /** A stream that watches the service of the event, or all services, gets it last in its queue. */
  function Told(w: Watcher, ev: WatchEvent): Watcher {
    if w.service == "" || w.service == ev.ep.service then w.(queue := w.queue + [ev]) else w
  }

  class RegistryService {
    var endpoints: map<string, Endpoint>
    var lastSeen: map<string, int>
    var leaseToInstance: map<int, string>
    var instanceToLease: map<string, int>
    var leaseSeq: nat
    var watchers: map<nat, Watcher>

    ghost function S(): State
      reads this
    {
      State(endpoints, lastSeen, leaseToInstance, instanceToLease, leaseSeq, watchers)
    }

    constructor ()
      ensures S() == EMPTY
    {
      endpoints, lastSeen, leaseToInstance, instanceToLease, leaseSeq, watchers := map[], map[], map[], map[], 0, map[];
    }

    /** broadcastEvent: one watcher after the other. */
    method BroadcastEvent(ev: WatchEvent)
      modifies this`watchers
      ensures watchers == Broadcast(old(watchers), ev)
      ensures watchers.Keys == old(watchers).Keys && forall w :: w in watchers ==> watchers[w] == Told(old(watchers)[w], ev)
    {
      var ws, left := watchers, watchers.Keys;
      while left != {}
        invariant left <= ws.Keys && ws.Keys == old(watchers).Keys
        invariant forall w :: w in left ==> ws[w] == old(watchers)[w]
        invariant forall w :: w in ws && w !in left ==> ws[w] == Notify(old(watchers)[w], ev)
      {
        var w :| w in left;
        if ws[w].service == "" || ws[w].service == ev.ep.service {
          ws := ws[w := ws[w].(queue := ws[w].queue + [ev])];
        }
        left := left - {w};
      }
      watchers := ws;
    }

    method RegisterEndpoint(ep: Endpoint, now: int) returns (leaseId: int)
      modifies this
      ensures S() == Register(old(S()), ep, now)
      ensures leaseId == old(leaseSeq) + 1 && leaseId in leaseToInstance && leaseToInstance[leaseId] == ep.instanceId
      ensures endpoints == old(endpoints)[ep.instanceId := ep] && lastSeen == old(lastSeen)[ep.instanceId := now]
      ensures watchers.Keys == old(watchers).Keys && forall w :: w in watchers ==> watchers[w] == Told(old(watchers)[w], WatchEvent(Added, ep))
    {
      var id := ep.instanceId;
      if id in instanceToLease {
        leaseToInstance := leaseToInstance - {instanceToLease[id]};
      }
      endpoints := endpoints[id := ep];
      lastSeen := lastSeen[id := now];
      leaseSeq := leaseSeq + 1;
      leaseId := leaseSeq;
      leaseToInstance := leaseToInstance[leaseId := id];
      instanceToLease := instanceToLease[id := leaseId];
      BroadcastEvent(WatchEvent(Added, ep));
    }

    /** removeInstanceLocked, which is also all Deregister does. */
    method RemoveInstance(id: string)
      modifies this
      ensures S() == Remove(old(S()), id)
      ensures id !in old(endpoints) ==> S() == old(S())
      ensures endpoints == old(endpoints) - {id}
      ensures id in old(endpoints) ==> lastSeen == old(lastSeen) - {id} && watchers.Keys == old(watchers).Keys
      ensures id in old(endpoints) ==>
        forall w :: w in watchers ==> watchers[w] == Told(old(watchers)[w], WatchEvent(Removed, old(endpoints)[id]))
    {
      if id !in endpoints { return; }
      BroadcastEvent(WatchEvent(Removed, endpoints[id]));
      endpoints := endpoints - {id};
      lastSeen := lastSeen - {id};
      if id in instanceToLease {
        leaseToInstance := leaseToInstance - {instanceToLease[id]};
        instanceToLease := instanceToLease - {id};
      }
    }

    method Refresh(lease: int, now: int) returns (reply: KeepAliveReply)
      modifies this`lastSeen
      ensures S() == KeepAlive(old(S()), lease, now)
      ensures reply.found <==> lease in leaseToInstance
      ensures reply.ttlRemaining == if reply.found then 30 else 0
      ensures lastSeen == if reply.found then old(lastSeen)[leaseToInstance[lease] := now] else old(lastSeen)
    {
      if lease !in leaseToInstance {
        return KeepAliveReply(false, 0);
      }
      lastSeen := lastSeen[leaseToInstance[lease] := now];
      reply := KeepAliveReply(true, TTL_SECONDS);
    }

    /** One round of gcLoop: collect the expired ids, then remove them. */
    method Scan(now: int) returns (ghost dead: seq<string>)
      requires LeasesOk(S())
      modifies this
      ensures Lists(dead, Expired(old(S()), now)) && S() == RemoveAll(old(S()), dead)
    {
      var ids := Collect(now);
      for i := 0 to |ids|
        invariant S() == RemoveAll(old(S()), ids[..i])
      {
        RemoveInstance(ids[i]);
        assert ids[..i + 1][..i] == ids[..i];
      }
      assert ids[..|ids|] == ids;
      dead := ids;
    }

    method Collect(now: int) returns (ids: seq<string>)
      ensures Lists(ids, Expired(S(), now))
    {
      ids := [];
      var left := lastSeen.Keys;
      while left != {}
        invariant left <= lastSeen.Keys && NoDuplicates(ids)
        invariant forall id :: id in ids <==> id in Expired(S(), now) && id !in left
      {
        var id :| id in left;
        left := left - {id};
        if WholeSeconds(now - lastSeen[id]) > TTL_SECONDS {
          ids := ids + [id];
        }
      }
    }

    /** The start of Watch: enlist the stream and queue the current endpoints of its service. */
    method StartWatch(w: nat, service: string) returns (ghost order: seq<string>)
      requires w !in watchers
      modifies this`watchers
      ensures Enabled(old(S()), DoWatch(w, service, order)) && S() == Next(old(S()), DoWatch(w, service, order))
      ensures w in watchers && watchers[w].service == service && watchers[w].delivered == []
      ensures forall ev :: ev in watchers[w].queue ==> ev.kind == Added && (service == "" || ev.ep.service == service)
    {
      order := [];
      var queue := [];
      var left := endpoints.Keys;
      while left != {}
        invariant left <= endpoints.Keys && NoDuplicates(order)
        invariant forall id :: id in order <==> id in Selected(endpoints, service) && id !in left
        invariant queue == Snapshot(endpoints, order)
        invariant forall ev :: ev in queue ==> ev.kind == Added && (service == "" || ev.ep.service == service)
      {
        var id :| id in left;
        left := left - {id};
        if service == "" || endpoints[id].service == service {
          queue, order := queue + [WatchEvent(Added, endpoints[id])], order + [id];
        }
      }
      watchers := watchers[w := Watcher(service, queue, [])];
    }

    /** One turn of the Watch loop: pop the oldest event and write it. */
    method WriteNext(w: nat) returns (ev: WatchEvent)
      requires w in watchers && watchers[w].queue != []
      modifies this`watchers
      ensures S() == Next(old(S()), DoDeliver(w)) && ev == old(watchers[w].queue[0])
    {
      var x := watchers[w];
      ev := x.queue[0];
      watchers := watchers[w := x.(queue := x.queue[1..], delivered := x.delivered + [ev])];
    }
  }
}
