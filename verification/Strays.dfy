/** Watch streams when instances change their service: what a client of the stream believes, exactly. */
module Strays {
  import opened Registry
  import opened Discovery

  /** Event i registers the instance, so far in the watched service, under another one. */
  ghost predicate LeavesAt(run: seq<State>, es: seq<Event>, service: string, id: string, i: nat)
    requires i < |es| && |run| == |es| + 1
  {
    && es[i].DoRegister? && es[i].ep.instanceId == id && !Matches(service, es[i].ep)
    && id in run[i].endpoints && Matches(service, run[i].endpoints[id])
  }

  /** Event i registers the instance under the watched service. */
  ghost predicate JoinsAt(es: seq<Event>, service: string, id: string, i: nat)
    requires i < |es|
  {
    es[i].DoRegister? && es[i].ep.instanceId == id && Matches(service, es[i].ep)
  }

  /** Since start the instance left the service and did not register in it again. */
  ghost predicate Strayed(run: seq<State>, es: seq<Event>, service: string, id: string, start: nat, k: nat)
    requires k < |run| == |es| + 1
  {
    exists i: nat :: start <= i < k && LeavesAt(run, es, service, id, i) && forall j :: i < j < k ==> !JoinsAt(es, service, id, j)
  }

  lemma StrayedNext(run: seq<State>, es: seq<Event>, service: string, id: string, start: nat, k: nat)
    requires start <= k < |es| && |run| == |es| + 1
    ensures Strayed(run, es, service, id, start, k + 1) <==>
            LeavesAt(run, es, service, id, k) || (Strayed(run, es, service, id, start, k) && !JoinsAt(es, service, id, k))
  {
    if LeavesAt(run, es, service, id, k) {
      assert start <= k < k + 1;
    } else if Strayed(run, es, service, id, start, k) && !JoinsAt(es, service, id, k) {
      var i: nat :| start <= i < k && LeavesAt(run, es, service, id, i) && forall j :: i < j < k ==> !JoinsAt(es, service, id, j);
      assert forall j :: i < j < k + 1 ==> !JoinsAt(es, service, id, j);
    }
    if Strayed(run, es, service, id, start, k + 1) && !LeavesAt(run, es, service, id, k) {
      var i: nat :| start <= i < k + 1 && LeavesAt(run, es, service, id, i) && forall j :: i < j < k + 1 ==> !JoinsAt(es, service, id, j);
      assert start <= i < k && !JoinsAt(es, service, id, k);
    }
  }

  /** What the client believes about one instance: right, unless it strayed; then it is still believed to be there. */
  ghost predicate Believes(endpoints: map<string, Endpoint>, known: map<string, Endpoint>, service: string, id: string, strayed: bool) {
    var there := id in endpoints && Matches(service, endpoints[id]);
    if strayed then id in known && !there
    else (id in known <==> there) && (there ==> known[id] == endpoints[id])
  }

  lemma NotifyBelieves(endpoints: map<string, Endpoint>, x: Watcher, ep: Endpoint, id: string, strayed: bool)
    requires Believes(endpoints, Replay(Events(x)), x.service, id, strayed)
    ensures var leaves := ep.instanceId == id && !Matches(x.service, ep) && id in endpoints && Matches(x.service, endpoints[id]);
            var joins := ep.instanceId == id && Matches(x.service, ep);
            Believes(endpoints[ep.instanceId := ep], Replay(Events(Notify(x, WatchEvent(Added, ep)))), x.service, id, leaves || (strayed && !joins))
  {
    if Matches(x.service, ep) {
      assert Events(Notify(x, WatchEvent(Added, ep))) == Events(x) + [WatchEvent(Added, ep)];
      ReplaySnoc(Events(x), WatchEvent(Added, ep));
    }
  }

  lemma RemoveBelieves(s: State, gone: string, w: nat, id: string, strayed: bool)
    requires LeasesOk(s) && w in s.watchers && Believes(s.endpoints, Replay(Events(s.watchers[w])), s.watchers[w].service, id, strayed)
    ensures var s' := Registry.Remove(s, gone);
            && w in s'.watchers && s'.watchers[w].service == s.watchers[w].service
            && Believes(s'.endpoints, Replay(Events(s'.watchers[w])), s.watchers[w].service, id, strayed)
  {
    if gone in s.endpoints {
      var x, ev := s.watchers[w], WatchEvent(Removed, s.endpoints[gone]);
      if Matches(x.service, ev.ep) {
        assert Events(Notify(x, ev)) == Events(x) + [ev];
        ReplaySnoc(Events(x), ev);
      }
    }
  }

  lemma {:induction false} RemoveAllBelieves(s: State, ids: seq<string>, w: nat, id: string, strayed: bool)
    requires LeasesOk(s) && w in s.watchers && Believes(s.endpoints, Replay(Events(s.watchers[w])), s.watchers[w].service, id, strayed)
    ensures var s' := RemoveAll(s, ids);
            && w in s'.watchers && s'.watchers[w].service == s.watchers[w].service
            && Believes(s'.endpoints, Replay(Events(s'.watchers[w])), s.watchers[w].service, id, strayed)
  {
    if ids != [] {
      var n := |ids| - 1;
      RemoveAllBelieves(s, ids[..n], w, id, strayed);
      RemoveAllIs(s, ids[..n]);
      RemoveBelieves(RemoveAll(s, ids[..n]), ids[n], w, id, strayed);
    }
  }

  lemma StepBelieves(s: State, e: Event, w: nat, id: string, strayed: bool)
    requires LeasesOk(s) && w in s.watchers && Enabled(s, e) && w in Next(s, e).watchers
    requires Believes(s.endpoints, Replay(Events(s.watchers[w])), s.watchers[w].service, id, strayed)
    ensures var s', service := Next(s, e), s.watchers[w].service;
            var leaves := e.DoRegister? && e.ep.instanceId == id && !Matches(service, e.ep) && id in s.endpoints && Matches(service, s.endpoints[id]);
            var joins := e.DoRegister? && e.ep.instanceId == id && Matches(service, e.ep);
            && s'.watchers[w].service == service
            && Believes(s'.endpoints, Replay(Events(s'.watchers[w])), service, id, leaves || (strayed && !joins))
  {
    match e
    case DoRegister(ep, _) => NotifyBelieves(s.endpoints, s.watchers[w], ep, id, strayed);
    case DoDeregister(gone) => RemoveBelieves(s, gone, w, id, strayed);
    case DoScan(_, dead) => RemoveAllBelieves(s, dead, w, id, strayed);
    case DoDeliver(w') =>
      var x := s.watchers[w'];
      assert (x.delivered + [x.queue[0]]) + x.queue[1..] == x.delivered + x.queue;
    case _ =>
  }

  lemma NewStreamBelieves(s: State, w: nat, service: string, order: seq<string>, id: string)
    requires LeasesOk(s) && Enabled(s, DoWatch(w, service, order))
    ensures var s' := Next(s, DoWatch(w, service, order));
            Believes(s'.endpoints, Replay(Events(s'.watchers[w])), service, id, false)
  {
    ReplaySnapshot(s.endpoints, order);
    assert [] + Snapshot(s.endpoints, order) == Snapshot(s.endpoints, order);
  }

  /** In every run, ids keeping their service or not: the client of an open stream is right about an instance unless it
      strayed since the stream opened. */
  lemma {:induction false} StreamBelieves(run: seq<State>, es: seq<Event>, w: nat, service: string, start: nat, k: nat, id: string)
    requires IsRun(run, es) && run[0] == Registry.EMPTY && Open(run, es, w, service, start, k)
    ensures run[k].watchers[w].service == service
    ensures Believes(run[k].endpoints, Replay(Events(run[k].watchers[w])), service, id, Strayed(run, es, service, id, start, k))
  {
    assert Linked(run, es, k - 1);
    LeasesAlwaysOk(run, es, k - 1);
    if k == start {
      NewStreamBelieves(run[k - 1], w, service, es[k - 1].order, id);
    } else {
      StreamBelieves(run, es, w, service, start, k - 1, id);
      StepBelieves(run[k - 1], es[k - 1], w, id, Strayed(run, es, service, id, start, k - 1));
      StrayedNext(run, es, service, id, start, k - 1);
    }
  }

  /** An open stream is in sync if and only if no instance left its service since it opened without registering in it again. */
  lemma StreamInSyncIff(run: seq<State>, es: seq<Event>, w: nat, service: string, start: nat, k: nat)
    requires IsRun(run, es) && run[0] == Registry.EMPTY && Open(run, es, w, service, start, k)
    ensures InSync(run[k].endpoints, run[k].watchers[w]) <==> forall id :: !Strayed(run, es, service, id, start, k)
  {
    var known, selected := Replay(Events(run[k].watchers[w])), Selected(run[k].endpoints, service);
    StreamBelieves(run, es, w, service, start, k, "");
    if forall id :: !Strayed(run, es, service, id, start, k) {
      forall id ensures (id in known <==> id in selected) && (id in known ==> known[id] == selected[id]) {
        StreamBelieves(run, es, w, service, start, k, id);
        assert !Strayed(run, es, service, id, start, k);
      }
      assert known == selected;
    } else {
      var id :| Strayed(run, es, service, id, start, k);
      StreamBelieves(run, es, w, service, start, k, id);
      assert id in known && id !in selected;
    }
  }

  /** Register, Watch, register under another service. */
  lemma MovingRun() returns (run: seq<State>, es: seq<Event>)
    ensures IsRun(run, es) && |es| == 3 && run[0] == Registry.EMPTY && Open(run, es, 0, "logic", 2, 3)
    ensures LeavesAt(run, es, "logic", "i", 2)
  {
    var ep, ep' := Endpoint("i", "logic", "a", 1), Endpoint("i", "push", "a", 1);
    var s1 := Next(Registry.EMPTY, DoRegister(ep, 0));
    assert s1.endpoints == map["i" := ep] && s1.watchers == map[];
    assert Selected(s1.endpoints, "logic").Keys == {"i"};
    var s2 := Next(s1, DoWatch(0, "logic", ["i"]));
    var s3 := Next(s2, DoRegister(ep', 1));
    run, es := [Registry.EMPTY, s1, s2, s3], [DoRegister(ep, 0), DoWatch(0, "logic", ["i"]), DoRegister(ep', 1)];
    assert Linked(run, es, 0) && Linked(run, es, 1) && Linked(run, es, 2);
  }

  /** The stream never learns that the instance is gone. */
  lemma LeavingIsMissed() returns (run: seq<State>, es: seq<Event>)
    ensures IsRun(run, es) && run[0] == Registry.EMPTY && Open(run, es, 0, "logic", 2, 3)
    ensures !InSync(run[3].endpoints, run[3].watchers[0])
  {
    run, es := MovingRun();
    StreamInSyncIff(run, es, 0, "logic", 2, 3);
    assert Strayed(run, es, "logic", "i", 2, 3);
  }
}
