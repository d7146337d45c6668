/** Runs of the outbox that go wrong: rows overtaken after a refusal or a failed delivery, rows sent twice after a reclaim. */
module OutboxTrouble {
  import opened Outbox
  import opened OutboxOrder

  // ----- a row that is handed back -----

  lemma LinkedBy(run: seq<World>, es: seq<Event>, i: nat, w: World, e: Event, w': World)
    requires i < |es| && |run| == |es| + 1 && run[i] == w && es[i] == e && run[i + 1] == w'
    requires Outbox.Enabled(w, e) && w' == Next(w, e)
    ensures OutboxOrder.Linked(run, es, i)
  {
  }

  lemma ConcatRuns(run: seq<World>, es: seq<Event>, run': seq<World>, es': seq<Event>)
    requires IsRun(run, es) && IsRun(run', es') && run[|es|] == run'[0]
    ensures IsRun(run + run'[1..], es + es')
  {
    var all, evs := run + run'[1..], es + es';
    forall i: nat | i < |evs| ensures OutboxOrder.Linked(all, evs, i) {
      if i < |es| {
        assert OutboxOrder.Linked(run, es, i);
      } else {
        assert OutboxOrder.Linked(run', es', i - |es|);
        assert all[i] == run'[i - |es|] && all[i + 1] == run'[i - |es| + 1];
      }
    }
  }

  lemma {:induction false} ProducedConcat(run: seq<World>, es: seq<Event>, run': seq<World>, es': seq<Event>, k: nat)
    requires IsRun(run, es) && IsRun(run', es') && run[|es|] == run'[0] && IsRun(run + run'[1..], es + es') && k <= |es| + |es'|
    ensures Produced(run + run'[1..], es + es', k) ==
            if k <= |es| then Produced(run, es, k) else Produced(run, es, |es|) + Produced(run', es', k - |es|)
  {
    var all, evs := run + run'[1..], es + es';
    if k > 0 {
      ProducedConcat(run, es, run', es', k - 1);
      assert OutboxOrder.Linked(all, evs, k - 1);
      if k <= |es| {
        assert all[k - 1] == run[k - 1] && evs[k - 1] == es[k - 1];
      } else {
        var j := k - 1 - |es|;
        assert OutboxOrder.Linked(run', es', j);
        assert all[k - 1] == run'[j] && evs[k - 1] == es'[j];
      }
    }
  }

  /** The first of two claimed rows is refused, the second accepted. */
  lemma AfterRefusal(w: World, r: int, a: int, b: int, p: int) returns (run: seq<World>, es: seq<Event>)
    requires r in w.relays && w.relays[r] == Relay([], [a, b]) && a in w.rows
    requires p !in w.inflight && p !in w.orphans && PendingIds(w.rows) == {}
    ensures IsRun(run, es) && run[0] == w && Produced(run, es, |es|) == [b]
    ensures var w' := run[|es|];
            && r in w'.relays && w'.relays[r] == Relay([], []) && PendingIds(w'.rows) == {a}
            && w'.inflight.Keys == w.inflight.Keys + {p} && w'.orphans == w.orphans
  {
    var w1 := Next(w, Refuse(r, true));
    assert w1.relays[r] == Relay([], [b]);
    var w2 := Next(w1, Enqueue(r, p));
    run, es := [w, w1, w2], [Refuse(r, true), Enqueue(r, p)];
    LinkedBy(run, es, 0, w, Refuse(r, true), w1);
    LinkedBy(run, es, 1, w1, Enqueue(r, p), w2);
    assert Produced(run, es, 1) == [];
  }

  /** Both of two claimed rows are accepted. */
  lemma BothHandedOver(w: World, r: int, a: int, b: int, p: int, p': int) returns (run: seq<World>, es: seq<Event>)
    requires r in w.relays && w.relays[r] == Relay([], [a, b])
    requires p != p' && p !in w.inflight && p !in w.orphans && p' !in w.inflight && p' !in w.orphans
    ensures IsRun(run, es) && run[0] == w && Produced(run, es, |es|) == [a, b] && forall i :: 0 <= i < |es| ==> Steady(es[i], r)
    ensures var w' := run[|es|];
            && r in w'.relays && w'.relays[r] == Relay([], []) && w'.rows == w.rows
            && w'.inflight == w.inflight[p := Produce(r, a, false)][p' := Produce(r, b, false)] && w'.orphans == w.orphans
  {
    var w1 := Next(w, Enqueue(r, p));
    assert w1.relays[r] == Relay([], [b]);
    var w2 := Next(w1, Enqueue(r, p'));
    run, es := [w, w1, w2], [Enqueue(r, p), Enqueue(r, p')];
    LinkedBy(run, es, 0, w, Enqueue(r, p), w1);
    LinkedBy(run, es, 1, w1, Enqueue(r, p'), w2);
    assert Produced(run, es, 1) == [a];
  }

  /** The delivery of a row fails. */
  lemma DeliveryFails(w: World, r: int, a: int, p: int) returns (run: seq<World>, es: seq<Event>)
    requires p in w.inflight && w.inflight[p].id == a && a in w.rows && PendingIds(w.rows) == {}
    ensures IsRun(run, es) && run[0] == w && Produced(run, es, |es|) == [] && forall i :: 0 <= i < |es| ==> Steady(es[i], r)
    ensures var w' := run[|es|];
            w'.relays == w.relays && PendingIds(w'.rows) == {a} && w'.inflight == w.inflight - {p} && w'.orphans == w.orphans
  {
    var w' := Next(w, Callback(p, false, true));
    run, es := [w, w'], [Callback(p, false, true)];
    LinkedBy(run, es, 0, w, Callback(p, false, true), w');
  }

  /** Both of two claimed rows are accepted, then the delivery of the first fails. */
  lemma AfterFailedDelivery(w: World, r: int, a: int, b: int, p: int, p': int) returns (run: seq<World>, es: seq<Event>)
    requires r in w.relays && w.relays[r] == Relay([], [a, b]) && a in w.rows && PendingIds(w.rows) == {}
    requires p != p' && p !in w.inflight && p !in w.orphans && p' !in w.inflight && p' !in w.orphans
    ensures IsRun(run, es) && run[0] == w && Produced(run, es, |es|) == [a, b] && forall i :: 0 <= i < |es| ==> Steady(es[i], r)
    ensures var w' := run[|es|];
            && r in w'.relays && w'.relays[r] == Relay([], []) && PendingIds(w'.rows) == {a}
            && w'.inflight.Keys == w.inflight.Keys + {p'} && w'.orphans == w.orphans
  {
    var run1, es1 := BothHandedOver(w, r, a, b, p, p');
    var run2, es2 := DeliveryFails(run1[|es1|], r, a, p);
    run, es := run1 + run2[1..], es1 + es2;
    ConcatRuns(run1, es1, run2, es2);
    ProducedConcat(run1, es1, run2, es2, |es|);
  }

  /** The next batch hands the first row over again, behind the second. */
  lemma FailedDeliveryIsOvertaken(w: World, r: int, a: int, b: int, p: int, p': int, q: int) returns (run: seq<World>, es: seq<Event>)
    requires r in w.relays && w.relays[r] == Relay([], [a, b]) && a in w.rows && a < b && PendingIds(w.rows) == {}
    requires p != p' && p !in w.inflight && p !in w.orphans && p' !in w.inflight && p' !in w.orphans
    requires q != p' && q !in w.inflight && q !in w.orphans
    ensures IsRun(run, es) && run[0] == w && Produced(run, es, |es|) == [a, b, a] && forall i :: 0 <= i < |es| ==> Steady(es[i], r)
  {
    var run1, es1 := AfterFailedDelivery(w, r, a, b, p, p');
    var run2, es2 := OneMoreBatch(run1[|es1|], r, a, q);
    run, es := run1 + run2[1..], es1 + es2;
    ConcatRuns(run1, es1, run2, es2);
    ProducedConcat(run1, es1, run2, es2, |es|);
  }

  lemma SelectOne(w: World, r: int, a: int)
    requires r in w.relays && w.relays[r] == Relay([], []) && PendingIds(w.rows) == {a}
    ensures Outbox.Enabled(w, Select(r, [a])) && Next(w, Select(r, [a])) == w.(relays := w.relays[r := Relay([a], [])])
  {
    assert IsBatch(w.rows, [a]);
  }

  lemma ClaimOne(w: World, r: int, a: int)
    requires r in w.relays && w.relays[r] == Relay([a], []) && a in w.rows && w.rows[a].status == Pending
    ensures Outbox.Enabled(w, Claim(r, true))
    ensures Next(w, Claim(r, true)) == w.(rows := w.rows[a := w.rows[a].(status := Sending)], relays := w.relays[r := Relay([], [a])])
  {
    assert [a][1..] == [] && [] + [a] == [a];
  }

  lemma HandOverOne(w: World, r: int, a: int, q: int)
    requires r in w.relays && w.relays[r] == Relay([], [a]) && q !in w.inflight && q !in w.orphans
    ensures Outbox.Enabled(w, Enqueue(r, q))
    ensures Next(w, Enqueue(r, q)) == w.(relays := w.relays[r := Relay([], [])], inflight := w.inflight[q := Produce(r, a, false)])
  {
    assert [a][1..] == [];
  }

  lemma BatchOfOne(w: World, r: int, a: int, q: int) returns (w1: World, w2: World, w3: World)
    requires r in w.relays && w.relays[r] == Relay([], []) && PendingIds(w.rows) == {a}
    requires q !in w.inflight && q !in w.orphans
    ensures Outbox.Enabled(w, Select(r, [a])) && w1 == Next(w, Select(r, [a]))
    ensures Outbox.Enabled(w1, Claim(r, true)) && w2 == Next(w1, Claim(r, true))
    ensures r in w2.relays && w2.relays[r] == Relay([], [a])
    ensures Outbox.Enabled(w2, Enqueue(r, q)) && w3 == Next(w2, Enqueue(r, q))
    ensures w3.inflight == w.inflight[q := Produce(r, a, false)] && w3.relays == w.relays && w3.orphans == w.orphans
    ensures a in w.rows && w3.rows == w.rows[a := w.rows[a].(status := Sending)]
  {
    assert a in PendingIds(w.rows);
    SelectOne(w, r, a);
    w1 := w.(relays := w.relays[r := Relay([a], [])]);
    ClaimOne(w1, r, a);
    w2 := w1.(rows := w.rows[a := w.rows[a].(status := Sending)], relays := w1.relays[r := Relay([], [a])]);
    HandOverOne(w2, r, a, q);
    w3 := w2.(relays := w2.relays[r := Relay([], [])], inflight := w2.inflight[q := Produce(r, a, false)]);
  }

  lemma NothingElsePending(rows: map<int, Row>, a: int)
    requires PendingIds(rows) == {a}
    ensures a in rows && PendingIds(rows[a := rows[a].(status := Sending)]) == {}
  {
    assert a in PendingIds(rows);
    var rows' := rows[a := rows[a].(status := Sending)];
    forall x ensures x !in PendingIds(rows') {
      assert x in PendingIds(rows') ==> x in PendingIds(rows);
    }
  }

  /** A drain that finds one row. */
  lemma OneMoreBatch(w: World, r: int, a: int, q: int) returns (run: seq<World>, es: seq<Event>)
    requires r in w.relays && w.relays[r] == Relay([], []) && PendingIds(w.rows) == {a}
    requires q !in w.inflight && q !in w.orphans
    ensures IsRun(run, es) && run[0] == w && Produced(run, es, |es|) == [a] && forall i :: 0 <= i < |es| ==> Steady(es[i], r)
    ensures var w' := run[|es|];
            && w'.inflight == w.inflight[q := Produce(r, a, false)] && w'.relays == w.relays && w'.orphans == w.orphans
            && w'.rows.Keys == w.rows.Keys && PendingIds(w'.rows) == {}
  {
    var w1, w2, w3 := BatchOfOne(w, r, a, q);
    run, es := [w, w1, w2, w3], [Select(r, [a]), Claim(r, true), Enqueue(r, q)];
    LinkedBy(run, es, 0, w, Select(r, [a]), w1);
    LinkedBy(run, es, 1, w1, Claim(r, true), w2);
    LinkedBy(run, es, 2, w2, Enqueue(r, q), w3);
    NothingElsePending(w.rows, a);
    ProducedByThree(run, es, r, a);
  }

  lemma ProducedByThree(run: seq<World>, es: seq<Event>, r: int, a: int)
    requires IsRun(run, es) && |es| == 3 && es[0].Select? && es[1].Claim? && es[2].Enqueue? && es[2].relay == r
    requires r in run[2].relays && run[2].relays[r] == Relay([], [a])
    ensures Produced(run, es, 3) == [a]
  {
    assert Produced(run, es, 1) == [];
    assert Produced(run, es, 2) == Produced(run, es, 1);
    assert Produced(run, es, 3) == Produced(run, es, 2) + [a];
  }

  /** Two claimed rows, the first refused: it is taken up by the next batch and handed over after the second. */
  lemma ReturnedRowIsOvertaken(w: World, r: int, a: int, b: int, p: int, q: int) returns (run: seq<World>, es: seq<Event>)
    requires r in w.relays && w.relays[r] == Relay([], [a, b]) && a in w.rows && a < b
    requires p != q && p !in w.inflight && p !in w.orphans && q !in w.inflight && q !in w.orphans
    requires PendingIds(w.rows) == {}
    ensures IsRun(run, es) && run[0] == w && Produced(run, es, |es|) == [b, a]
  {
    var run1, es1 := AfterRefusal(w, r, a, b, p);
    var run2, es2 := OneMoreBatch(run1[|es1|], r, a, q);
    run, es := run1 + run2[1..], es1 + es2;
    ConcatRuns(run1, es1, run2, es2);
    ProducedConcat(run1, es1, run2, es2, |es|);
  }

  // ----- a reclaim while another relay is alive -----

  /** start() of a second server, which asks nobody: the stuck rows become pending. */
  ghost function Started(w: World, r: int, stuck: set<int>): World {
    w.(rows := AfterReclaim(w.rows, stuck), relays := w.relays[r := Relay([], [])])
  }

  lemma RunLeads(run: seq<World>, es: seq<Event>)
    requires IsRun(run, es)
    ensures Leads(run[0], run, run[|es|])
  {
    forall i: nat | i + 1 < |run| ensures Outbox.Linked(run, i) {
      assert OutboxOrder.Linked(run, es, i);
    }
  }

  /** The row in flight is reclaimed, claimed again and handed over again: two outstanding produces of one row. */
  lemma ReclaimedRowGoesTwice(w: World, id: int, p: int, r: int, q: int) returns (run: seq<World>, w': World)
    requires p in w.inflight && w.inflight[p].id == id && id in w.rows && w.rows[id].status == Sending
    requires r !in w.relays && q !in w.inflight && q !in w.orphans && PendingIds(w.rows) == {}
    ensures Leads(Started(w, r, {id}), run, w')
    ensures p != q && p in w'.inflight && q in w'.inflight && w'.inflight[p].id == w'.inflight[q].id == id
  {
    var w0 := Started(w, r, {id});
    assert PendingIds(w0.rows) == {id};
    var es;
    run, es := OneMoreBatch(w0, r, id, q);
    w' := run[|es|];
    RunLeads(run, es);
  }

  lemma OneRowPending(msg: Message) returns (run: seq<World>, w: World)
    ensures Leads(EMPTY, run, w) && w.relays == map[1 := Relay([], [])] && w.rows.Keys == {1} && PendingIds(w.rows) == {1}
    ensures w.inflight == map[] && w.orphans == map[]
  {
    var e0, e1 := SendPrivate(msg, 1, "t", "k"), Boot(1, {});
    var w1 := Next(EMPTY, e0);
    w := Next(w1, e1);
    run := [EMPTY];
    LeadsSnoc(EMPTY, run, EMPTY, e0);
    LeadsSnoc(EMPTY, run + [w1], w1, e1);
    run := run + [w1] + [w];
    assert w.rows == w1.rows;
  }

  /** A world with a row in flight is reached by one message and one relay. */
  lemma OneRowInFlight(msg: Message) returns (run: seq<World>, w: World)
    ensures Leads(EMPTY, run, w) && w.inflight == map[1 := Produce(1, 1, false)] && w.orphans == map[] && w.relays.Keys == {1}
    ensures w.rows.Keys == {1} && w.rows[1].status == Sending && PendingIds(w.rows) == {}
  {
    var run1, w1 := OneRowPending(msg);
    var run2, es := OneMoreBatch(w1, 1, 1, 1);
    RunLeads(run2, es);
    w := run2[|es|];
    run := run1 + run2[1..];
    LeadsThrough(EMPTY, run1, w1, run2, w);
    Reachable(run, w);
    assert Holds(w, Flight(1), 1);
  }

  /** Altogether: one message, one relay, and a second server that starts: two outstanding produces of the one row. */
  lemma TwoOutstandingProduces(msg: Message) returns (run: seq<World>, w: World, more: seq<World>, w': World)
    ensures Leads(EMPTY, run, w) && 2 !in w.relays && Leads(Started(w, 2, {1}), more, w')
    ensures 1 in w'.inflight && 2 in w'.inflight && w'.inflight[1].id == w'.inflight[2].id == 1
  {
    run, w := OneRowInFlight(msg);
    more, w' := ReclaimedRowGoesTwice(w, 1, 1, 2, 2);
  }

  /** And so is one with two rows claimed, the start of ReturnedRowIsOvertaken. */
  lemma TwoRowsClaimed(m1: Message, m2: Message) returns (run: seq<World>, w: World)
    requires m1.msgId != m2.msgId
    ensures Leads(EMPTY, run, w) && 1 in w.relays && w.relays[1] == Relay([], [1, 2]) && w.rows.Keys == {1, 2}
    ensures PendingIds(w.rows) == {} && w.inflight == map[] && w.orphans == map[]
  {
    var w2;
    run, w2 := TwoRowsPending(m1, m2);
    var w3 := Next(w2, Select(1, [1, 2]));
    LeadsSnoc(EMPTY, run, w2, Select(1, [1, 2]));
    run := run + [w3];
    assert w3.relays[1] == Relay([1, 2], []) && [1, 2][1..] == [2] && [] + [1] == [1];
    var w4 := Next(w3, Claim(1, true));
    LeadsSnoc(EMPTY, run, w3, Claim(1, true));
    run := run + [w4];
    assert w4.relays[1] == Relay([2], [1]) && [2][1..] == [] && [1] + [2] == [1, 2];
    w := Next(w4, Claim(1, true));
    LeadsSnoc(EMPTY, run, w4, Claim(1, true));
    run := run + [w];
  }

  lemma TwoRowsPending(m1: Message, m2: Message) returns (run: seq<World>, w: World)
    requires m1.msgId != m2.msgId
    ensures Leads(EMPTY, run, w) && w.relays == map[1 := Relay([], [])] && w.rows.Keys == {1, 2}
    ensures w.rows[1].status == Pending && w.rows[2].status == Pending && IsBatch(w.rows, [1, 2])
    ensures w.inflight == map[] && w.orphans == map[]
  {
    var e0, e1, e2 := SendPrivate(m1, 1, "t", "k"), SendPrivate(m2, 2, "t", "k"), Boot(1, {});
    var w1 := Next(EMPTY, e0);
    var w2 := Next(w1, e1);
    w := Next(w2, e2);
    assert w.rows == w2.rows;
    run := [EMPTY];
    LeadsSnoc(EMPTY, run, EMPTY, e0);
    LeadsSnoc(EMPTY, run + [w1], w1, e1);
    LeadsSnoc(EMPTY, run + [w1] + [w2], w2, e2);
    run := run + [w1] + [w2] + [w];
    assert PendingIds(w.rows) == {1, 2};
  }
}
