/** Progress of the outbox: from every reachable world a restart and trouble-free drains and deliveries send every row. */
module OutboxProgress {
  import opened Outbox

  // ----- a batch can always be selected -----

  lemma NotEmpty(s: set<int>)
    ensures s == {} || exists x: int :: x in s
  {
    if forall x: int :: x !in s {
      assert s == {};
    }
  }

  ghost function Least(s: set<int>): (m: int)
    requires s != {}
    ensures m in s && forall x :: x in s ==> m <= x
  {
    NotEmpty(s);
    var x: int :| x in s;
    if s == {x} then x
    else
      var m := Least(s - {x});
      assert s == (s - {x}) + {x};
      if m <= x then m else x
  }

  /** The n least elements, in ascending order, or all of them. */
  ghost predicate FirstOf(s: set<int>, n: nat, ids: seq<int>) {
    && |ids| <= n
    && (forall i, j :: 0 <= i < j < |ids| ==> ids[i] < ids[j])
    && (forall x :: x in ids ==> x in s)
    && forall x :: x in s && x !in ids ==> |ids| == n && forall y :: y in ids ==> y < x
  }

  lemma {:induction false} FirstExists(s: set<int>, n: nat) returns (ids: seq<int>)
    ensures FirstOf(s, n, ids) && (n > 0 && s != {} ==> ids != [])
    decreases n
  {
    if n == 0 || s == {} {
      ids := [];
    } else {
      var m := Least(s);
      var rest := FirstExists(s - {m}, n - 1);
      ids := [m] + rest;
      FirstCons(s, n, m, rest);
    }
  }

  lemma FirstCons(s: set<int>, n: nat, m: int, rest: seq<int>)
    requires n > 0 && m in s && (forall x :: x in s ==> m <= x) && FirstOf(s - {m}, n - 1, rest)
    ensures FirstOf(s, n, [m] + rest)
  {
    var ids := [m] + rest;
    forall i, j | 0 <= i < j < |ids| ensures ids[i] < ids[j] {
      var y := ids[j];
      assert y in rest && y in s - {m};
    }
    forall x | x in s && x !in ids ensures |ids| == n && forall y :: y in ids ==> y < x {
      assert x in s - {m} && x !in rest;
    }
  }

  // ----- one relay that meets no trouble -----

  /** One relay runs, and whatever is in sending is in its hands. */
  ghost predicate Going(w: World, r: int) {
    && Inv(w) && w.relays.Keys == {r}
    && (forall id :: id in w.rows && w.rows[id].status == Sending ==> exists h :: Holds(w, h, id))
  }

  /** The steps of trouble-free drains and deliveries. */
  predicate Smooth(e: Event) {
    match e
    case Select(_, ids) => ids != []
    case Claim(_, ran) => ran
    case Enqueue(_, _) => true
    case Store(_) => true
    case Callback(_, ok, dbUp) => ok && dbUp
    case _ => false
  }

  ghost function Unsent(w: World): set<int> {
    set id | id in w.rows && w.rows[id].status != Sent
  }

  ghost function Unstored(w: World): set<int> {
    set pid | pid in w.inflight && !w.inflight[pid].stored
  }

  ghost predicate SmoothLink(run: seq<World>, i: nat)
    requires i + 1 < |run|
  {
    exists e :: Smooth(e) && Enabled(run[i], e) && Next(run[i], e) == run[i + 1]
  }

  /** A run of trouble-free steps only. */
  ghost predicate SmoothRun(w: World, run: seq<World>, w': World) {
    && |run| > 0 && run[0] == w && run[|run| - 1] == w'
    && forall i: nat {:trigger SmoothLink(run, i)} :: i + 1 < |run| ==> SmoothLink(run, i)
  }

  lemma SmoothCons(w: World, e: Event, run: seq<World>, w': World)
    requires Enabled(w, e) && Smooth(e) && SmoothRun(Next(w, e), run, w')
    ensures SmoothRun(w, [w] + run, w')
  {
    var all := [w] + run;
    forall i: nat | i + 1 < |all| ensures SmoothLink(all, i) {
      if i == 0 {
        assert all[0] == w && all[1] == Next(w, e);
      } else {
        assert SmoothLink(run, i - 1);
        assert all[i] == run[i - 1] && all[i + 1] == run[i];
      }
    }
  }

  lemma SmoothRunLeads(w: World, run: seq<World>, w': World)
    requires SmoothRun(w, run, w')
    ensures Leads(w, run, w')
  {
    forall i: nat | i + 1 < |run| ensures Linked(run, i) {
      assert SmoothLink(run, i);
    }
  }

  // ----- what each step does to what is left -----

  /** Rows not sent, pending rows, claimed rows, produces not stored, pending rows not selected, candidates. */
  ghost function Left(w: World, r: int): (nat, nat, nat, nat, nat, nat)
    requires r in w.relays
  {
    var relay := w.relays[r];
    (|Unsent(w)|, |PendingIds(w.rows)|, |relay.claimed|, |Unstored(w)|,
     |PendingIds(w.rows) - (set id | id in relay.candidates)|, |relay.candidates|)
  }

  ghost predicate Less(a: (nat, nat, nat, nat, nat, nat), b: (nat, nat, nat, nat, nat, nat)) {
    || a.0 < b.0
    || (a.0 == b.0 && a.1 < b.1)
    || (a.0 == b.0 && a.1 == b.1 && a.2 < b.2)
    || (a.0 == b.0 && a.1 == b.1 && a.2 == b.2 && a.3 < b.3)
    || (a.0 == b.0 && a.1 == b.1 && a.2 == b.2 && a.3 == b.3 && a.4 < b.4)
    || (a.0 == b.0 && a.1 == b.1 && a.2 == b.2 && a.3 == b.3 && a.4 == b.4 && a.5 < b.5)
  }

  lemma Shrinks<T>(a: set<T>, b: set<T>, x: T)
    requires a <= b && x in b && x !in a
    ensures |a| < |b|
  {
    assert b == a + (b - a) && x in b - a;
    assert |b| == |a| + |b - a|;
  }

  lemma StoreStep(w: World, r: int, pid: int)
    requires Going(w, r) && pid in w.inflight && !w.inflight[pid].stored
    ensures Enabled(w, Store(pid)) && Going(Next(w, Store(pid)), r) && Less(Left(Next(w, Store(pid)), r), Left(w, r))
  {
    assert Holds(w, Flight(pid), w.inflight[pid].id);
    var w' := Next(w, Store(pid));
    NextKeepsInv(w, Store(pid));
    forall id | id in w'.rows && w'.rows[id].status == Sending ensures exists h :: Holds(w', h, id) {
      var h :| Holds(w, h, id);
      assert Holds(w', h, id);
    }
    assert Unsent(w') == Unsent(w);
    Shrinks(Unstored(w'), Unstored(w), pid);
  }

  lemma CallbackStep(w: World, r: int, pid: int)
    requires Going(w, r) && pid in w.inflight && w.inflight[pid].stored
    ensures var e := Callback(pid, true, true);
            Enabled(w, e) && Going(Next(w, e), r) && Less(Left(Next(w, e), r), Left(w, r))
  {
    var e, id0 := Callback(pid, true, true), w.inflight[pid].id;
    var w' := Next(w, e);
    assert Holds(w, Flight(pid), id0);
    NextKeepsInv(w, e);
    forall id | id in w'.rows && w'.rows[id].status == Sending ensures exists h :: Holds(w', h, id) {
      var h :| Holds(w, h, id);
      assert Holds(w', h, id);
    }
    Shrinks(Unsent(w'), Unsent(w), id0);
  }

  lemma ClaimGoes(w: World, r: int)
    requires Going(w, r) && w.relays[r].candidates != []
    ensures Enabled(w, Claim(r, true)) && Going(Next(w, Claim(r, true)), r)
  {
    var w' := Next(w, Claim(r, true));
    NextKeepsInv(w, Claim(r, true));
    forall id | id in w'.rows && w'.rows[id].status == Sending ensures exists h :: Holds(w', h, id) {
      HeldAfterClaim(w, r, id);
    }
  }

  lemma HeldAfterClaim(w: World, r: int, id: int)
    requires r in w.relays && w.relays[r].candidates != []
    requires id in w.rows && w.rows[id].status == Sending ==> exists h :: Holds(w, h, id)
    ensures var w' := Next(w, Claim(r, true));
            id in w'.rows && w'.rows[id].status == Sending ==> exists h :: Holds(w', h, id)
  {
    var w', id0 := Next(w, Claim(r, true)), w.relays[r].candidates[0];
    if id == id0 && id in w.rows && w.rows[id].status == Pending {
      assert Holds(w', Batch(r), id);
    } else if id in w'.rows && w'.rows[id].status == Sending {
      var h :| Holds(w, h, id);
      assert Holds(w', h, id);
    }
  }

  lemma ClaimLeaves(w: World, r: int)
    requires r in w.relays && w.relays[r].candidates != []
    ensures Less(Left(Next(w, Claim(r, true)), r), Left(w, r))
  {
    var w', id0 := Next(w, Claim(r, true)), w.relays[r].candidates[0];
    assert Unsent(w') == Unsent(w);
    if id0 in PendingIds(w.rows) {
      Shrinks(PendingIds(w'.rows), PendingIds(w.rows), id0);
    } else {
      assert w'.rows == w.rows;
      AllButFirst(PendingIds(w.rows), w.relays[r].candidates);
    }
  }

  lemma AllButFirst(pending: set<int>, candidates: seq<int>)
    requires candidates != [] && candidates[0] !in pending
    ensures pending - (set id | id in candidates[1..]) == pending - (set id | id in candidates)
  {
    assert candidates == [candidates[0]] + candidates[1..];
  }

  lemma EnqueueStep(w: World, r: int, pid: int)
    requires Going(w, r) && w.relays[r].candidates == [] && w.relays[r].claimed != [] && pid !in w.inflight && pid !in w.orphans
    ensures var e := Enqueue(r, pid);
            Enabled(w, e) && Going(Next(w, e), r) && Less(Left(Next(w, e), r), Left(w, r))
  {
    var e, id0 := Enqueue(r, pid), w.relays[r].claimed[0];
    var w' := Next(w, e);
    NextKeepsInv(w, e);
    forall id | id in w'.rows && w'.rows[id].status == Sending ensures exists h :: Holds(w', h, id) {
      if id == id0 {
        assert Holds(w', Flight(pid), id);
      } else {
        var h :| Holds(w, h, id);
        assert w.relays[r].claimed == [id0] + w'.relays[r].claimed;
        assert Holds(w', h, id);
      }
    }
    assert Unsent(w') == Unsent(w);
  }

  lemma SelectGoes(w: World, r: int, ids: seq<int>)
    requires Going(w, r) && w.relays[r] == Relay([], []) && IsBatch(w.rows, ids)
    ensures Enabled(w, Select(r, ids)) && Going(Next(w, Select(r, ids)), r)
  {
    var w' := Next(w, Select(r, ids));
    NextKeepsInv(w, Select(r, ids));
    forall id | id in w'.rows && w'.rows[id].status == Sending ensures exists h :: Holds(w', h, id) {
      var h :| Holds(w, h, id);
      assert Holds(w', h, id);
    }
  }

  lemma SelectLeaves(w: World, r: int, ids: seq<int>)
    requires r in w.relays && w.relays[r] == Relay([], []) && ids != [] && ids[0] in PendingIds(w.rows)
    ensures var w' := w.(relays := w.relays[r := Relay(ids, [])]);
            Less(Left(w', r), Left(w, r))
  {
    var w' := w.(relays := w.relays[r := Relay(ids, [])]);
    assert Unsent(w') == Unsent(w);
    var none: set<int> := set id | id in w.relays[r].candidates;
    assert none == {};
    Shrinks(PendingIds(w.rows) - (set id | id in ids), PendingIds(w.rows) - none, ids[0]);
  }

  lemma SelectStep(w: World, r: int, ids: seq<int>)
    requires Going(w, r) && w.relays[r] == Relay([], []) && IsBatch(w.rows, ids) && ids != []
    ensures var e := Select(r, ids);
            Enabled(w, e) && Going(Next(w, e), r) && Less(Left(Next(w, e), r), Left(w, r))
  {
    SelectGoes(w, r, ids);
    assert ids[0] in ids;
    SelectLeaves(w, r, ids);
  }

  // ----- every row gets sent -----

  lemma FreshId(s: set<int>) returns (x: int)
    ensures x !in s
  {
    x := 0;
    if s != {} {
      x := Least(s) - 1;
    }
  }

  /** Unless every row is sent, some trouble-free step is possible and brings that nearer. */
  lemma SomeStep(w: World, r: int) returns (e: Event)
    requires Going(w, r) && Unsent(w) != {}
    ensures Smooth(e) && Enabled(w, e) && Going(Next(w, e), r) && Less(Left(Next(w, e), r), Left(w, r))
  {
    var relay := w.relays[r];
    NotEmpty(w.inflight.Keys);
    if w.inflight.Keys != {} {
      var pid: int :| pid in w.inflight.Keys;
      if w.inflight[pid].stored {
        e := Callback(pid, true, true);
        CallbackStep(w, r, pid);
      } else {
        e := Store(pid);
        StoreStep(w, r, pid);
      }
    } else if relay.candidates != [] {
      e := Claim(r, true);
      ClaimGoes(w, r);
      ClaimLeaves(w, r);
    } else if relay.claimed != [] {
      var pid := FreshId(w.inflight.Keys + w.orphans.Keys);
      e := Enqueue(r, pid);
      EnqueueStep(w, r, pid);
    } else {
      IdleHasPending(w, r);
      var ids := FirstExists(PendingIds(w.rows), BATCH);
      e := Select(r, ids);
      SelectStep(w, r, ids);
    }
  }

  /** With nothing in hand, what is not sent is pending. */
  lemma IdleHasPending(w: World, r: int)
    requires Going(w, r) && Unsent(w) != {} && w.inflight.Keys == {} && w.relays[r] == Relay([], [])
    ensures PendingIds(w.rows) != {}
  {
    NotEmpty(Unsent(w));
    var id: int :| id in Unsent(w);
    assert forall h :: !Holds(w, h, id);
    assert id in PendingIds(w.rows);
  }

  /** A relay that meets no trouble sends every row. */
  lemma {:induction false} AllGetSent(w: World, r: int) returns (run: seq<World>, w': World)
    requires Going(w, r)
    ensures SmoothRun(w, run, w') && Inv(w') && forall id :: id in w'.rows ==> w'.rows[id].status == Sent
    decreases Left(w, r).0, Left(w, r).1, Left(w, r).2, Left(w, r).3, Left(w, r).4, Left(w, r).5
  {
    if Unsent(w) == {} {
      run, w' := [w], w;
      forall id | id in w.rows ensures w.rows[id].status == Sent {
        assert id !in Unsent(w);
      }
    } else {
      var e := SomeStep(w, r);
      var rest;
      rest, w' := AllGetSent(Next(w, e), r);
      run := [w] + rest;
      SmoothCons(w, e, rest, w');
    }
  }

  // ----- a restart -----

  /** Every relay dies. */
  lemma {:induction false} AllDie(w: World) returns (run: seq<World>, w': World)
    requires Inv(w)
    ensures Leads(w, run, w') && Inv(w') && w'.relays == map[] && w'.rows == w.rows
    decreases |w.relays|
  {
    if w.relays == map[] {
      run, w' := [w], w;
    } else {
      NotEmpty(w.relays.Keys);
      var r: int :| r in w.relays.Keys;
      NextKeepsInv(w, Kill(r));
      assert |w.relays - {r}| < |w.relays| by {
        Shrinks((w.relays - {r}).Keys, w.relays.Keys, r);
        assert |(w.relays - {r}).Keys| == |w.relays - {r}| && |w.relays.Keys| == |w.relays|;
      }
      var rest;
      rest, w' := AllDie(Next(w, Kill(r)));
      run := [w, Next(w, Kill(r))];
      LeadsSnoc(w, [w], w, Kill(r));
      assert [w] + [Next(w, Kill(r))] == run;
      LeadsThrough(w, run, Next(w, Kill(r)), rest, w');
      run := run + rest[1..];
    }
  }

  ghost function InSending(w: World): set<int> {
    set id | id in w.rows && w.rows[id].status == Sending
  }

  /** A fresh start takes back whatever is in sending. */
  lemma StartGoes(w: World, r: int)
    requires Inv(w) && w.relays == map[]
    ensures Enabled(w, Boot(r, InSending(w))) && Going(Next(w, Boot(r, InSending(w))), r)
  {
    NextKeepsInv(w, Boot(r, InSending(w)));
  }

  /** From every reachable world, whatever died or failed so far: a restart and then trouble-free drains and deliveries
      lead to a world in which every row is sent. */
  lemma EveryRowCanBeSent(history: seq<World>, w: World, r: int) returns (restart: seq<World>, w1: World, run: seq<World>, w': World)
    requires Leads(EMPTY, history, w)
    ensures Leads(w, restart, w1) && SmoothRun(w1, run, w')
    ensures Leads(EMPTY, history + (restart + run[1..])[1..], w') && forall id :: id in w'.rows ==> w'.rows[id].status == Sent
  {
    Reachable(history, w);
    var dying, w0 := AllDie(w);
    StartGoes(w0, r);
    w1 := Next(w0, Boot(r, InSending(w0)));
    LeadsSnoc(w, dying, w0, Boot(r, InSending(w0)));
    restart := dying + [w1];
    run, w' := AllGetSent(w1, r);
    SmoothRunLeads(w1, run, w');
    LeadsThrough(w, restart, w1, run, w');
    LeadsThrough(EMPTY, history, w, restart + run[1..], w');
  }
}
