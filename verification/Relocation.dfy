/** An instance that registers again under another address: what the gateway's pool makes of it. */
module Relocation {
  import opened HashRing
  import opened Registry
  import opened Pool
  import opened Discovery

  ghost function AddrsOf(known: map<string, Endpoint>): set<string> {
    set i | i in known :: known[i].addr
  }

  lemma AddrsOfAdd(known: map<string, Endpoint>, ep: Endpoint)
    requires ep.instanceId in known ==> known[ep.instanceId].addr == ep.addr
    ensures AddrsOf(known[ep.instanceId := ep]) == AddrsOf(known) + {ep.addr}
  {
    var known' := known[ep.instanceId := ep];
    assert ep.instanceId in known' && known'[ep.instanceId].addr == ep.addr;
    forall c | c in AddrsOf(known) ensures c in AddrsOf(known') {
      var i :| i in known && known[i].addr == c;
      assert i in known' && known'[i].addr == c;
    }
  }

  /** The pool holds exactly what is known, at the known addresses. */
  ghost predicate Agrees(s: Pool, known: map<string, Endpoint>) {
    && s.instanceToAddr.Keys == known.Keys
    && (forall i :: i in known ==> s.instanceToAddr[i] == known[i].addr)
    && s.clients == AddrsOf(known)
  }

  /** Event k announces a known instance under another address. */
  ghost predicate MovesAt(evs: seq<WatchEvent>, k: nat)
    requires k < |evs|
  {
    var known, ev := Replay(evs[..k]), evs[k];
    ev.kind != Removed && ev.ep.instanceId in known && known[ev.ep.instanceId].addr != ev.ep.addr
  }

  ghost predicate Moves(evs: seq<WatchEvent>) {
    exists k: nat :: k < |evs| && MovesAt(evs, k)
  }

  /** Every address belongs to one instance; an instance may have several in the course of time. */
  ghost predicate Owned(evs: seq<WatchEvent>, idOf: map<string, string>) {
    forall ev :: ev in evs ==> ev.ep.addr in idOf && idOf[ev.ep.addr] == ev.ep.instanceId
  }

  ghost predicate KnownOwned(known: map<string, Endpoint>, idOf: map<string, string>) {
    forall i :: i in known ==> known[i].addr in idOf && idOf[known[i].addr] == i
  }

  /** A client that no instance leads to any more. */
  ghost predicate Stranded(s: Pool, addr: string) {
    addr in s.clients && forall i :: i in s.instanceToAddr ==> s.instanceToAddr[i] != addr
  }

  lemma MovesSnoc(evs: seq<WatchEvent>, ev: WatchEvent)
    ensures Moves(evs + [ev]) <==> Moves(evs) || MovesAt(evs + [ev], |evs|)
  {
    var all := evs + [ev];
    forall k: nat | k < |evs| ensures MovesAt(all, k) <==> MovesAt(evs, k) {
      assert all[..k] == evs[..k] && all[k] == evs[k];
    }
    if Moves(evs) {
      var k: nat :| k < |evs| && MovesAt(evs, k);
      assert MovesAt(all, k);
    }
  }

  /** While nobody moves the pool keeps up. */
  lemma HandleAgrees(hash: Hash, s: Pool, known: map<string, Endpoint>, ev: WatchEvent, idOf: map<string, string>)
    requires Agrees(s, known) && KnownOwned(known, idOf) && ev.ep.addr in idOf && idOf[ev.ep.addr] == ev.ep.instanceId
    requires ev.kind != Removed && ev.ep.instanceId in known ==> known[ev.ep.instanceId].addr == ev.ep.addr
    ensures var id := ev.ep.instanceId;
            Agrees(Handle(hash, s, ev), if ev.kind == Removed then known - {id} else known[id := ev.ep])
  {
    var id := ev.ep.instanceId;
    var s', known' := Handle(hash, s, ev), if ev.kind == Removed then known - {id} else known[id := ev.ep];
    if ev.kind == Removed {
      if id in known {
        var addr := known[id].addr;
        assert s.instanceToAddr[id] == addr && addr in s.clients;
        assert s'.clients == s.clients - {addr};
        forall c | c in s'.clients ensures c in AddrsOf(known') {
          var i :| i in known && known[i].addr == c;
          assert i in known' && known'[i].addr == c;
        }
        forall i | i in known' ensures known'[i].addr in s'.clients {
          assert idOf[known[i].addr] == i && idOf[addr] == id;
        }
      }
    } else {
      AddAgrees(hash, s, known, ev.ep, idOf);
    }
  }

  lemma ClientIsKnown(s: Pool, known: map<string, Endpoint>, idOf: map<string, string>, c: string)
    requires Agrees(s, known) && KnownOwned(known, idOf) && c in s.clients
    ensures c in idOf && idOf[c] in known && known[idOf[c]].addr == c
  {
    var i :| i in known && known[i].addr == c;
  }

  lemma AddAgrees(hash: Hash, s: Pool, known: map<string, Endpoint>, ep: Endpoint, idOf: map<string, string>)
    requires Agrees(s, known) && KnownOwned(known, idOf) && ep.addr in idOf && idOf[ep.addr] == ep.instanceId
    requires ep.instanceId in known ==> known[ep.instanceId].addr == ep.addr
    ensures Agrees(AddEndpoint(hash, s, ep, ""), known[ep.instanceId := ep])
  {
    AddrsOfAdd(known, ep);
    if ep.addr in s.clients {
      ClientIsKnown(s, known, idOf, ep.addr);
    }
  }

  /** A move leaves the old client behind. */
  lemma MoveStrands(hash: Hash, s: Pool, known: map<string, Endpoint>, ep: Endpoint, idOf: map<string, string>)
    requires Agrees(s, known) && KnownOwned(known, idOf) && ep.addr in idOf && idOf[ep.addr] == ep.instanceId
    requires ep.instanceId in known && known[ep.instanceId].addr != ep.addr
    ensures Stranded(AddEndpoint(hash, s, ep, ""), known[ep.instanceId].addr)
  {
    var id, former := ep.instanceId, known[ep.instanceId].addr;
    assert former in s.clients;
    assert ep.addr !in s.clients by {
      if ep.addr in s.clients {
        ClientIsKnown(s, known, idOf, ep.addr);
      }
    }
    var s' := AddEndpoint(hash, s, ep, "");
    forall i | i in s'.instanceToAddr ensures s'.instanceToAddr[i] != former {
      if i != id {
        assert s'.instanceToAddr[i] == known[i].addr && idOf[known[i].addr] == i && idOf[former] == id;
      }
    }
  }

  /** And nothing ever takes it away. */
  lemma StrandedStays(hash: Hash, s: Pool, ev: WatchEvent, addr: string)
    requires Stranded(s, addr)
    ensures Stranded(Handle(hash, s, ev), addr)
  {
  }

  lemma StrandedDisagrees(s: Pool, known: map<string, Endpoint>, addr: string)
    requires Stranded(s, addr)
    ensures !Agrees(s, known)
  {
    if Agrees(s, known) {
      ClientHasInstance(s, known, addr);
    }
  }

  lemma ClientHasInstance(s: Pool, known: map<string, Endpoint>, c: string)
    requires Agrees(s, known) && c in s.clients
    ensures exists i :: i in s.instanceToAddr && s.instanceToAddr[i] == c
  {
    var i :| i in known && known[i].addr == c;
    assert i in s.instanceToAddr;
  }

  /** The pool agrees with what it was told, or a client is stranded, as no instance has moved or one has. */
  ghost predicate AgreesOrStrands(s: Pool, known: map<string, Endpoint>, moved: bool) {
    if moved then exists addr :: Stranded(s, addr) else Agrees(s, known)
  }

  lemma {:induction false} MovedOrAgrees(hash: Hash, evs: seq<WatchEvent>, idOf: map<string, string>)
    requires Owned(evs, idOf)
    ensures KnownOwned(Replay(evs), idOf)
    ensures AgreesOrStrands(HandleAll(hash, NO_CLIENTS, evs), Replay(evs), Moves(evs))
    decreases |evs|
  {
    if evs != [] {
      var n := |evs| - 1;
      var front, ev := evs[..n], evs[n];
      assert evs == front + [ev] && ev in evs;
      MovedOrAgrees(hash, front, idOf);
      MovesSnoc(front, ev);
      ReplaySnoc(front, ev);
      StepMovedOrAgrees(hash, HandleAll(hash, NO_CLIENTS, front), Replay(front), ev, idOf, Moves(front));
      assert evs[..n] == front && MovesAt(evs, n) <==> MovesNow(Replay(front), ev);
    }
  }

  ghost predicate MovesNow(known: map<string, Endpoint>, ev: WatchEvent) {
    ev.kind != Removed && ev.ep.instanceId in known && known[ev.ep.instanceId].addr != ev.ep.addr
  }

  lemma StepMovedOrAgrees(hash: Hash, s: Pool, known: map<string, Endpoint>, ev: WatchEvent, idOf: map<string, string>, moved: bool)
    requires AgreesOrStrands(s, known, moved) && KnownOwned(known, idOf) && ev.ep.addr in idOf && idOf[ev.ep.addr] == ev.ep.instanceId
    ensures var id := ev.ep.instanceId;
            var known' := if ev.kind == Removed then known - {id} else known[id := ev.ep];
            AgreesOrStrands(Handle(hash, s, ev), known', moved || MovesNow(known, ev)) && KnownOwned(known', idOf)
  {
    if moved {
      var addr :| Stranded(s, addr);
      StrandedStays(hash, s, ev, addr);
    } else if MovesNow(known, ev) {
      MoveStrands(hash, s, known, ev.ep, idOf);
    } else {
      HandleAgrees(hash, s, known, ev, idOf);
    }
  }

  /** If every address belongs to one instance: a pool that has read its stream agrees with the registry, instances,
      addresses and clients, if and only if no delivered event moved a known instance to another address. */
  lemma DrainedPoolAgreesIff(hash: Hash, run: seq<State>, es: seq<Event>, k: nat, w: nat, idOf: map<string, string>)
    requires IsRun(run, es) && run[0] == Registry.EMPTY && k < |run| && forall i :: 0 <= i < |es| ==> KeepsService(run[i], es[i])
    requires w in run[k].watchers && run[k].watchers[w].queue == [] && Owned(run[k].watchers[w].delivered, idOf)
    ensures var x := run[k].watchers[w];
            Agrees(HandleAll(hash, NO_CLIENTS, x.delivered), Selected(run[k].endpoints, x.service)) <==> !Moves(x.delivered)
  {
    StreamsAlwaysInSync(run, es, k);
    var x := run[k].watchers[w];
    assert x.delivered + x.queue == x.delivered;
    MovedOrAgrees(hash, x.delivered, idOf);
    var s := HandleAll(hash, NO_CLIENTS, x.delivered);
    if Moves(x.delivered) {
      var addr :| Stranded(s, addr);
      StrandedDisagrees(s, Selected(run[k].endpoints, x.service), addr);
    }
  }
}
