/** Registry and pool together: what a gateway's pool holds after reading a Watch stream. */
module Discovery {
  import opened HashRing
  import opened Registry
  import opened Pool

  /** The event switch of watchLoop: Updated is handled like Added. */
  function Handle(hash: Hash, s: Pool, ev: WatchEvent): Pool {
    match ev.kind
    case Added => AddEndpoint(hash, s, ev.ep, "")
    case Removed => RemoveEndpoint(s, ev.ep.instanceId)
    case Updated => AddEndpoint(hash, s, ev.ep, "")
  }

  function HandleAll(hash: Hash, s: Pool, evs: seq<WatchEvent>): Pool {
    if evs == [] then s else Handle(hash, HandleAll(hash, s, evs[..|evs| - 1]), evs[|evs| - 1])
  }

  /** Replay that starts from what List returned. */
  function ReplayFrom(known: map<string, Endpoint>, evs: seq<WatchEvent>): map<string, Endpoint> {
    if evs == [] then known
    else
      var m, ev := ReplayFrom(known, evs[..|evs| - 1]), evs[|evs| - 1];
      if ev.kind == Removed then m - {ev.ep.instanceId} else m[ev.ep.instanceId := ev.ep]
  }

  /** Every instance has one address for good, and no two instances share one. */
  datatype Book = Book(addrOf: map<string, string>, idOf: map<string, string>)

  ghost predicate OneToOne(b: Book) {
    && (forall i :: i in b.addrOf ==> b.addrOf[i] in b.idOf && b.idOf[b.addrOf[i]] == i)
    && (forall a :: a in b.idOf ==> b.idOf[a] in b.addrOf && b.addrOf[b.idOf[a]] == a)
  }

  ghost predicate Stable(b: Book, ep: Endpoint) {
    ep.instanceId in b.addrOf && b.addrOf[ep.instanceId] == ep.addr
  }

  /** The pool has exactly one client per known instance, at its address. */
  ghost predicate Tracks(s: Pool, known: map<string, Endpoint>, b: Book) {
    && known.Keys <= b.addrOf.Keys
    && s.instanceToAddr.Keys == known.Keys
    && (forall i :: i in known ==> s.instanceToAddr[i] == b.addrOf[i] && b.addrOf[i] in s.clients)
    && (forall a :: a in s.clients ==> a in b.idOf && b.idOf[a] in known)
  }

  lemma AddTracks(hash: Hash, s: Pool, known: map<string, Endpoint>, b: Book, ep: Endpoint)
    requires OneToOne(b) && Tracks(s, known, b) && Stable(b, ep)
    ensures Tracks(AddEndpoint(hash, s, ep, ""), known[ep.instanceId := ep], b)
  {
    assert b.idOf[ep.addr] == ep.instanceId;
    assert ep.addr in s.clients <==> ep.instanceId in known;
  }

  lemma RemoveTracks(s: Pool, known: map<string, Endpoint>, b: Book, id: string)
    requires OneToOne(b) && Tracks(s, known, b)
    ensures Tracks(RemoveEndpoint(s, id), known - {id}, b)
  {
    if id in known {
      assert b.idOf[b.addrOf[id]] == id;
    }
  }

  lemma HandleTracks(hash: Hash, s: Pool, known: map<string, Endpoint>, b: Book, ev: WatchEvent)
    requires OneToOne(b) && Tracks(s, known, b) && Stable(b, ev.ep)
    ensures var id := ev.ep.instanceId;
            Tracks(Handle(hash, s, ev), if ev.kind == Removed then known - {id} else known[id := ev.ep], b)
  {
    if ev.kind == Removed {
      RemoveTracks(s, known, b, ev.ep.instanceId);
    } else {
      AddTracks(hash, s, known, b, ev.ep);
    }
  }

  lemma {:induction false} HandleAllTracks(hash: Hash, s: Pool, known: map<string, Endpoint>, b: Book, evs: seq<WatchEvent>)
    requires OneToOne(b) && Tracks(s, known, b) && forall ev :: ev in evs ==> Stable(b, ev.ep)
    ensures Tracks(HandleAll(hash, s, evs), ReplayFrom(known, evs), b)
    decreases |evs|
  {
    if evs != [] {
      var n := |evs| - 1;
      HandleAllTracks(hash, s, known, b, evs[..n]);
      HandleTracks(hash, HandleAll(hash, s, evs[..n]), ReplayFrom(known, evs[..n]), b, evs[n]);
    }
  }

  lemma {:induction false} ReplayFromNothing(evs: seq<WatchEvent>)
    ensures ReplayFrom(map[], evs) == Replay(evs)
  {
    if evs != [] {
      ReplayFromNothing(evs[..|evs| - 1]);
    }
  }

  /** A gateway that started empty and has read its stream to the end has a client for exactly the addresses
      registered for the service. */
  lemma DrainedPoolMatchesRegistry(hash: Hash, run: seq<State>, es: seq<Event>, k: nat, w: nat, b: Book)
    requires IsRun(run, es) && run[0] == Registry.EMPTY && k < |run| && forall i :: 0 <= i < |es| ==> KeepsService(run[i], es[i])
    requires w in run[k].watchers && run[k].watchers[w].queue == []
    requires OneToOne(b) && forall ev :: ev in run[k].watchers[w].delivered ==> Stable(b, ev.ep)
    ensures var x := run[k].watchers[w];
            HandleAll(hash, NO_CLIENTS, x.delivered).clients ==
            set id | id in Selected(run[k].endpoints, x.service) :: Selected(run[k].endpoints, x.service)[id].addr
  {
    StreamsAlwaysInSync(run, es, k);
    var x := run[k].watchers[w];
    assert x.delivered + x.queue == x.delivered;
    ReplayFromNothing(x.delivered);
    HandleAllTracks(hash, NO_CLIENTS, map[], b, x.delivered);
    forall id | id in Replay(x.delivered) ensures id in b.addrOf && Replay(x.delivered)[id].addr == b.addrOf[id] {
      ReplayedIsStable(b, x.delivered, id);
    }
    assert Replay(x.delivered) == Selected(run[k].endpoints, x.service);
  }

  lemma {:induction false} ReplayedIsStable(b: Book, evs: seq<WatchEvent>, id: string)
    requires (forall ev :: ev in evs ==> Stable(b, ev.ep)) && id in Replay(evs)
    ensures Stable(b, Replay(evs)[id]) && Replay(evs)[id].instanceId == id
  {
    var n := |evs| - 1;
    assert evs[n] in evs;
    if id in Replay(evs[..n]) {
      ReplayedIsStable(b, evs[..n], id);
    }
  }

  // ----- the gap between List and Watch -----

  ghost function Mentioned(evs: seq<WatchEvent>): set<string> {
    set ev | ev in evs :: ev.ep.instanceId
  }

  /** What List returned and the stream never mentions is kept for good. */
  lemma {:induction false} ListedStays(known: map<string, Endpoint>, evs: seq<WatchEvent>)
    ensures ReplayFrom(known, evs).Keys == (known.Keys - Mentioned(evs)) + Replay(evs).Keys
    ensures Replay(evs).Keys <= Mentioned(evs)
  {
    if evs != [] {
      var n := |evs| - 1;
      ListedStays(known, evs[..n]);
      assert evs == evs[..n] + [evs[n]];
      assert Mentioned(evs) == Mentioned(evs[..n]) + {evs[n].ep.instanceId};
    }
  }

  ghost function Events(x: Watcher): seq<WatchEvent> {
    x.delivered + x.queue
  }

  /** The instances of the service that were registered at some time from start to k. */
  ghost function RegisteredSince(run: seq<State>, service: string, start: nat, k: nat): set<string>
    requires start <= k < |run|
  {
    Selected(run[k].endpoints, service).Keys + if k == start then {} else RegisteredSince(run, service, start, k - 1)
  }

  lemma MentionedSnoc(evs: seq<WatchEvent>, ev: WatchEvent)
    ensures Mentioned(evs + [ev]) == Mentioned(evs) + {ev.ep.instanceId}
  {
    forall id | id in Mentioned(evs) + {ev.ep.instanceId} ensures id in Mentioned(evs + [ev]) {
      if id in Mentioned(evs) {
        var x :| x in evs && x.ep.instanceId == id;
        assert x in evs + [ev];
      } else {
        assert ev in evs + [ev];
      }
    }
  }

  /** The stream mentions whatever is registered now. */
  ghost predicate Covers(s: State, w: nat) {
    w in s.watchers && Selected(s.endpoints, s.watchers[w].service).Keys <= Mentioned(Events(s.watchers[w]))
  }

  lemma NotifyMentions(x: Watcher, ev: WatchEvent)
    ensures var x' := Notify(x, ev);
            Mentioned(Events(x')) == Mentioned(Events(x)) + if Matches(x.service, ev.ep) then {ev.ep.instanceId} else {}
  {
    if Matches(x.service, ev.ep) {
      assert Events(Notify(x, ev)) == Events(x) + [ev];
      MentionedSnoc(Events(x), ev);
    }
  }

  lemma RemoveMentions(s: State, id: string, w: nat)
    requires LeasesOk(s) && Covers(s, w)
    ensures Covers(Registry.Remove(s, id), w) && Mentioned(Events(Registry.Remove(s, id).watchers[w])) == Mentioned(Events(s.watchers[w]))
    ensures Registry.Remove(s, id).watchers[w].service == s.watchers[w].service
  {
    if id in s.endpoints {
      NotifyMentions(s.watchers[w], WatchEvent(Removed, s.endpoints[id]));
      assert Matches(s.watchers[w].service, s.endpoints[id]) ==> id in Selected(s.endpoints, s.watchers[w].service);
    }
  }

  lemma {:induction false} RemoveAllMentions(s: State, ids: seq<string>, w: nat)
    requires LeasesOk(s) && Covers(s, w)
    ensures Covers(RemoveAll(s, ids), w) && Mentioned(Events(RemoveAll(s, ids).watchers[w])) == Mentioned(Events(s.watchers[w]))
    ensures RemoveAll(s, ids).watchers[w].service == s.watchers[w].service
  {
    if ids != [] {
      var n := |ids| - 1;
      RemoveAllMentions(s, ids[..n], w);
      RemoveAllIs(s, ids[..n]);
      RemoveMentions(RemoveAll(s, ids[..n]), ids[n], w);
    }
  }

  lemma RegisterMentions(s: State, ep: Endpoint, now: int, w: nat)
    requires Covers(s, w) && KeepsService(s, DoRegister(ep, now))
    ensures var x, s' := s.watchers[w], Register(s, ep, now);
            && s'.watchers[w].service == x.service
            && Mentioned(Events(s'.watchers[w])) == Mentioned(Events(x)) + Selected(s'.endpoints, x.service).Keys
  {
    var x, id := s.watchers[w], ep.instanceId;
    NotifyMentions(x, WatchEvent(Added, ep));
    assert Selected(s.endpoints[id := ep], x.service).Keys
        == Selected(s.endpoints, x.service).Keys + if Matches(x.service, ep) then {id} else {};
  }

  lemma DeliverMentions(s: State, w: nat, w': nat)
    requires Covers(s, w) && Enabled(s, DoDeliver(w'))
    ensures var s' := Next(s, DoDeliver(w'));
            w in s'.watchers && s'.watchers[w].service == s.watchers[w].service && Events(s'.watchers[w]) == Events(s.watchers[w])
  {
    var x := s.watchers[w'];
    assert (x.delivered + [x.queue[0]]) + x.queue[1..] == x.delivered + x.queue;
  }

  /** One step adds to what an open stream mentions exactly what is registered after it. */
  lemma StepMentions(s: State, e: Event, w: nat)
    requires LeasesOk(s) && Covers(s, w) && Enabled(s, e) && KeepsService(s, e) && w in Next(s, e).watchers
    ensures Next(s, e).watchers[w].service == s.watchers[w].service
    ensures Mentioned(Events(Next(s, e).watchers[w])) ==
            Mentioned(Events(s.watchers[w])) + Selected(Next(s, e).endpoints, s.watchers[w].service).Keys
  {
    match e
    case DoRegister(ep, now) => RegisterMentions(s, ep, now, w);
    case DoDeregister(id) => RemoveMentions(s, id, w);
    case DoScan(_, dead) => RemoveAllMentions(s, dead, w);
    case DoDeliver(w') => DeliverMentions(s, w, w');
    case _ =>
  }

  /** The stream w opens just before state start and is still open at k. */
  ghost predicate Open(run: seq<State>, es: seq<Event>, w: nat, service: string, start: nat, k: nat) {
    && 0 < start <= k < |run| == |es| + 1
    && es[start - 1].DoWatch? && es[start - 1].watcher == w && es[start - 1].service == service
    && forall i :: start <= i <= k ==> w in run[i].watchers
  }

  lemma SnapshotMentions(endpoints: map<string, Endpoint>, order: seq<string>)
    requires (forall id :: id in order ==> id in endpoints) && forall id :: id in endpoints ==> endpoints[id].instanceId == id
    ensures Mentioned(Snapshot(endpoints, order)) == set id | id in order
  {
    var evs := Snapshot(endpoints, order);
    forall id | id in order ensures id in Mentioned(evs) {
      var i :| 0 <= i < |order| && order[i] == id;
      assert evs[i] in evs && evs[i].ep.instanceId == id;
    }
  }

  lemma NewStreamMentions(s: State, w: nat, service: string, order: seq<string>)
    requires LeasesOk(s) && Enabled(s, DoWatch(w, service, order))
    ensures var s' := Next(s, DoWatch(w, service, order));
            && w in s'.watchers && s'.watchers[w].service == service
            && Mentioned(Events(s'.watchers[w])) == Selected(s'.endpoints, service).Keys
  {
    SnapshotMentions(s.endpoints, order);
    assert [] + Snapshot(s.endpoints, order) == Snapshot(s.endpoints, order);
  }

  /** An open stream mentions exactly the instances of its service registered at some time since it opened. */
  lemma {:induction false} StreamMentions(run: seq<State>, es: seq<Event>, w: nat, service: string, start: nat, k: nat)
    requires IsRun(run, es) && run[0] == Registry.EMPTY && (forall i :: 0 <= i < |es| ==> KeepsService(run[i], es[i]))
    requires Open(run, es, w, service, start, k)
    ensures run[k].watchers[w].service == service && Covers(run[k], w)
    ensures Mentioned(Events(run[k].watchers[w])) == RegisteredSince(run, service, start, k)
  {
    assert Linked(run, es, k - 1);
    LeasesAlwaysOk(run, es, k - 1);
    if k == start {
      NewStreamMentions(run[k - 1], w, service, es[k - 1].order);
    } else {
      StreamMentions(run, es, w, service, start, k - 1);
      StepMentions(run[k - 1], es[k - 1], w);
    }
  }

  /** bootstrap: what List returned, in any order, is added to an empty pool. */
  function Booted(hash: Hash, endpoints: map<string, Endpoint>, order: seq<string>): Pool
    requires forall id :: id in order ==> id in endpoints
  {
    HandleAll(hash, NO_CLIENTS, Snapshot(endpoints, order))
  }

  ghost function Addresses(endpoints: map<string, Endpoint>, service: string): set<string> {
    set id | id in Selected(endpoints, service) :: Selected(endpoints, service)[id].addr
  }

  /** List returned the instances of state a. */
  ghost predicate ListedAt(s: State, service: string, order: seq<string>, b: Book) {
    && Lists(order, Selected(s.endpoints, service).Keys)
    && forall id :: id in Selected(s.endpoints, service) ==> Stable(b, s.endpoints[id])
  }

  lemma BootedTracks(hash: Hash, s: State, service: string, order: seq<string>, b: Book)
    requires LeasesOk(s) && OneToOne(b) && ListedAt(s, service, order, b)
    ensures Tracks(Booted(hash, s.endpoints, order), Selected(s.endpoints, service), b)
  {
    var evs := Snapshot(s.endpoints, order);
    ReplaySnapshot(s.endpoints, order);
    ReplayFromNothing(evs);
    forall ev | ev in evs ensures Stable(b, ev.ep) {
      var i :| 0 <= i < |evs| && evs[i] == ev;
      assert order[i] in order;
    }
    HandleAllTracks(hash, NO_CLIENTS, map[], b, evs);
    assert Replay(evs) == Selected(s.endpoints, service);
  }

  /** Pools that track different instances have different clients. */
  lemma ClientsTellInstances(s: Pool, known: map<string, Endpoint>, endpoints: map<string, Endpoint>, service: string, b: Book)
    requires OneToOne(b) && Tracks(s, known, b)
    requires forall id :: id in Selected(endpoints, service) ==> Stable(b, endpoints[id]) && endpoints[id].instanceId == id
    ensures s.clients == Addresses(endpoints, service) <==> known.Keys == Selected(endpoints, service).Keys
  {
    var sel := Selected(endpoints, service);
    assert forall id :: id in sel ==> sel[id].addr == b.addrOf[id];
    if s.clients == Addresses(endpoints, service) {
      forall id | id in known ensures id in sel {
        assert b.addrOf[id] in Addresses(endpoints, service);
        var j :| j in sel && sel[j].addr == b.addrOf[id];
        assert b.idOf[b.addrOf[id]] == id && b.idOf[b.addrOf[j]] == j;
      }
      forall id | id in sel ensures id in known {
        assert sel[id].addr in s.clients;
      }
    } else if known.Keys == sel.Keys {
      forall c ensures c in s.clients <==> c in Addresses(endpoints, service) {
        if c in s.clients {
          var id := b.idOf[c];
          assert id in sel && sel[id].addr == c;
        }
      }
    }
  }

  /**
   * bootstrap lists the service at state a, the stream opens at start and is read to the end at k. The pool then has
   * clients for exactly the addresses registered at k if and only if every listed instance was registered at some time
   * since the stream opened; one that disappeared in between keeps its client for good.
   */
  lemma BootstrapInSyncIff(hash: Hash, run: seq<State>, es: seq<Event>, a: nat, order: seq<string>,
                           w: nat, service: string, start: nat, k: nat, b: Book)
    requires IsRun(run, es) && run[0] == Registry.EMPTY && (forall i :: 0 <= i < |es| ==> KeepsService(run[i], es[i]))
    requires OneToOne(b) && a < |run| && ListedAt(run[a], service, order, b)
    requires Open(run, es, w, service, start, k) && run[k].watchers[w].queue == []
    requires forall ev :: ev in run[k].watchers[w].delivered ==> Stable(b, ev.ep)
    ensures var pool := HandleAll(hash, Booted(hash, run[a].endpoints, order), run[k].watchers[w].delivered);
            pool.clients == Addresses(run[k].endpoints, service) <==>
            Selected(run[a].endpoints, service).Keys <= RegisteredSince(run, service, start, k)
  {
    LeasesAlwaysOk(run, es, a);
    StreamsAlwaysInSync(run, es, k);
    StreamMentions(run, es, w, service, start, k);
    var evs, listed, now := run[k].watchers[w].delivered, Selected(run[a].endpoints, service), Selected(run[k].endpoints, service);
    assert Events(run[k].watchers[w]) == evs;
    BootedTracks(hash, run[a], service, order, b);
    HandleAllTracks(hash, Booted(hash, run[a].endpoints, order), listed, b, evs);
    ListedStays(listed, evs);
    forall id | id in now ensures Stable(b, now[id]) {
      ReplayedIsStable(b, evs, id);
    }
    ClientsTellInstances(HandleAll(hash, Booted(hash, run[a].endpoints, order), evs), ReplayFrom(listed, evs), run[k].endpoints, service, b);
  }

  lemma {:induction false} RegisteredAtTheStart(run: seq<State>, service: string, start: nat, k: nat)
    requires start <= k < |run|
    ensures Selected(run[start].endpoints, service).Keys <= RegisteredSince(run, service, start, k)
  {
    if k > start {
      RegisteredAtTheStart(run, service, start, k - 1);
    }
  }

  /** In particular nothing goes wrong if every listed instance is still registered when the stream opens. */
  lemma NoRemovalInTheGap(hash: Hash, run: seq<State>, es: seq<Event>, a: nat, order: seq<string>,
                          w: nat, service: string, start: nat, k: nat, b: Book)
    requires IsRun(run, es) && run[0] == Registry.EMPTY && (forall i :: 0 <= i < |es| ==> KeepsService(run[i], es[i]))
    requires OneToOne(b) && a < |run| && ListedAt(run[a], service, order, b)
    requires Open(run, es, w, service, start, k) && run[k].watchers[w].queue == []
    requires forall ev :: ev in run[k].watchers[w].delivered ==> Stable(b, ev.ep)
    requires Selected(run[a].endpoints, service).Keys <= Selected(run[start].endpoints, service).Keys
    ensures HandleAll(hash, Booted(hash, run[a].endpoints, order), run[k].watchers[w].delivered).clients == Addresses(run[k].endpoints, service)
  {
    RegisteredAtTheStart(run, service, start, k);
    BootstrapInSyncIff(hash, run, es, a, order, w, service, start, k, b);
  }

  /** Register, List, deregister, Watch: the pool keeps a client for an address nobody has any more. */
  lemma RemovalInTheGapIsMissed(hash: Hash)
    ensures var ep := Endpoint("i", "logic", "a", 1);
            var s1 := Register(Registry.EMPTY, ep, 0);
            var s2 := Registry.Remove(s1, "i");
            var s3 := s2.(watchers := map[0 := Watcher("logic", [], [])]);
            && IsRun([Registry.EMPTY, s1, s2, s3], [DoRegister(ep, 0), DoDeregister("i"), DoWatch(0, "logic", [])])
            && Lists(["i"], Selected(s1.endpoints, "logic").Keys)
            && HandleAll(hash, Booted(hash, s1.endpoints, ["i"]), s3.watchers[0].delivered).clients == {"a"}
            && Addresses(s3.endpoints, "logic") == {}
  {
    var ep := Endpoint("i", "logic", "a", 1);
    var s1 := Register(Registry.EMPTY, ep, 0);
    var s2 := Registry.Remove(s1, "i");
    var s3 := s2.(watchers := map[0 := Watcher("logic", [], [])]);
    var run, es := [Registry.EMPTY, s1, s2, s3], [DoRegister(ep, 0), DoDeregister("i"), DoWatch(0, "logic", [])];
    assert Linked(run, es, 0) && Linked(run, es, 1);
    assert s2.endpoints == map[] && Selected(s2.endpoints, "logic") == map[];
    assert s1.watchers == map[] && s2.watchers == map[] && Snapshot(s2.endpoints, []) == [];
    assert s3.watchers == s2.watchers[0 := Watcher("logic", Snapshot(s2.endpoints, []), [])];
    assert Linked(run, es, 2);
    assert Selected(s1.endpoints, "logic").Keys == {"i"};
    var evs := Snapshot(s1.endpoints, ["i"]);
    assert evs == [WatchEvent(Added, ep)] && evs[..0] == [];
    FirstClient(hash, evs[0]);
    assert evs == [evs[0]];
  }

  lemma FirstClient(hash: Hash, ev: WatchEvent)
    requires ev.kind == Added
    ensures HandleAll(hash, NO_CLIENTS, [ev]).clients == {ev.ep.addr}
  {
    assert [ev][..0] == [] && HandleAll(hash, NO_CLIENTS, []) == NO_CLIENTS;
    assert AddEndpoint(hash, NO_CLIENTS, ev.ep, "").clients == {} + {ev.ep.addr};
  }
}
