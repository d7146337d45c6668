/** Order and duplication at the Kafka producer: what the ascending batch query of src/server/OutboxService.h guarantees. */
module OutboxOrder {
  import opened Outbox

  // ----- runs with their produce calls -----

  ghost predicate Linked(run: seq<World>, es: seq<Event>, i: nat)
    requires i < |es| && |run| == |es| + 1
  {
    Outbox.Enabled(run[i], es[i]) && Next(run[i], es[i]) == run[i + 1]
  }

  ghost predicate IsRun(run: seq<World>, es: seq<Event>) {
    && |run| == |es| + 1
    && forall i: nat {:trigger Linked(run, es, i)} :: i < |es| ==> Linked(run, es, i)
  }

  /** The rows handed to Kafka by the first k events, in the order of the calls. */
  ghost function Produced(run: seq<World>, es: seq<Event>, k: nat): seq<int>
    requires IsRun(run, es) && k <= |es|
  {
    if k == 0 then []
    else
      var made, e := Produced(run, es, k - 1), es[k - 1];
      assert Linked(run, es, k - 1);
      if e.Enqueue? then made + [run[k - 1].relays[e.relay].claimed[0]] else made
  }

  ghost predicate Ascending(s: seq<int>) {
    forall i, j :: 0 <= i < j < |s| ==> s[i] < s[j]
  }

  /** Rows are committed in the order of their ids, one relay runs, and no row is handed back or passed over. */
  ghost predicate Smooth(w: World, e: Event, r: int) {
    match e
    case SendPrivate(_, id, _, _) => forall x: int :: x in w.rows ==> x < id
    case Boot(x, stuck) => x == r && stuck == {}
    case Claim(_, ran) => ran
    case Refuse(_, _) => false
    case Callback(_, ok, _) => ok
    case Kill(_) => false
    case _ => true
  }

  ghost function Waiting(w: World, r: int): seq<int> {
    if r in w.relays then w.relays[r].claimed + w.relays[r].candidates else []
  }

  /** Produced, claimed and selected rows ascend together; every other pending row comes after all of them. */
  ghost predicate InLine(w: World, r: int, made: seq<int>) {
    && w.relays.Keys <= {r}
    && Ascending(made + Waiting(w, r))
    && (forall id :: id in made + Waiting(w, r) ==> id in w.rows)
    && (r in w.relays ==> forall id :: id in w.relays[r].candidates ==> id in PendingIds(w.rows))
    && forall id :: id in PendingIds(w.rows) && !(r in w.relays && id in w.relays[r].candidates) ==> Above(made + Waiting(w, r), id)
  }

  ghost predicate Above(s: seq<int>, id: int) {
    forall i :: 0 <= i < |s| ==> s[i] < id
  }

  ghost function Made(w: World, e: Event, made: seq<int>): seq<int>
    requires Outbox.Enabled(w, e)
  {
    if e.Enqueue? then made + [w.relays[e.relay].claimed[0]] else made
  }

  lemma SendInLine(w: World, e: Event, r: int, made: seq<int>)
    requires InLine(w, r, made) && e.SendPrivate? && Outbox.Enabled(w, e) && Smooth(w, e, r)
    ensures InLine(Next(w, e), r, made)
  {
    var q := made + Waiting(w, r);
    forall i | 0 <= i < |q| ensures q[i] < e.id {
      var x := q[i];
      assert x in q && x in w.rows;
    }
    assert Above(q, e.id);
  }

  lemma AscendingConcat(s: seq<int>, t: seq<int>)
    requires Ascending(s) && Ascending(t) && forall j :: 0 <= j < |t| ==> Above(s, t[j])
    ensures Ascending(s + t)
  {
    forall i, j | 0 <= i < j < |s + t| ensures (s + t)[i] < (s + t)[j] {
      if i < |s| <= j {
        assert Above(s, t[j - |s|]);
      }
    }
  }

  lemma BatchAscends(w: World, ids: seq<int>, made: seq<int>)
    requires IsBatch(w.rows, ids) && Ascending(made) && forall id :: id in PendingIds(w.rows) ==> Above(made, id)
    ensures Ascending(made + ids)
    ensures forall id :: id in PendingIds(w.rows) && id !in ids ==> Above(made + ids, id)
  {
    forall j | 0 <= j < |ids| ensures Above(made, ids[j]) {
      var x := ids[j];
      assert x in ids && x in PendingIds(w.rows);
    }
    AscendingConcat(made, ids);
    forall id | id in PendingIds(w.rows) && id !in ids ensures Above(made + ids, id) {
      assert Above(made, id);
      forall j | 0 <= j < |ids| ensures ids[j] < id {
        var x := ids[j];
        assert x in ids;
      }
    }
  }

  lemma SelectInLine(w: World, e: Event, r: int, made: seq<int>)
    requires InLine(w, r, made) && e.Select? && Outbox.Enabled(w, e)
    ensures InLine(Next(w, e), r, made)
  {
    var w' := Next(w, e);
    assert e.relay == r && Waiting(w, r) == [] && made + [] == made;
    BatchAscends(w, e.ids, made);
    assert Waiting(w', r) == [] + e.ids == e.ids;
    assert w'.relays[r].candidates == e.ids && w'.rows == w.rows;
  }

  lemma ClaimInLine(w: World, e: Event, r: int, made: seq<int>)
    requires InLine(w, r, made) && e.Claim? && Outbox.Enabled(w, e) && Smooth(w, e, r)
    ensures InLine(Next(w, e), r, made)
  {
    var w', relay := Next(w, e), w.relays[r];
    var id, rest := relay.candidates[0], relay.candidates[1..];
    assert id in relay.candidates && id in PendingIds(w.rows);
    assert relay.candidates == [id] + rest;
    assert Waiting(w', r) == Waiting(w, r);
    var q, k := made + Waiting(w, r), |made| + |relay.claimed|;
    assert q[k] == id;
    forall x | x in rest ensures x != id && x in PendingIds(w'.rows) {
      var j :| 0 <= j < |rest| && rest[j] == x;
      assert q[k + 1 + j] == x;
      assert x in relay.candidates;
    }
    forall x | x in PendingIds(w'.rows) && x !in rest ensures Above(q, x) {
      assert x in PendingIds(w.rows) && x !in relay.candidates;
    }
  }

  lemma EnqueueInLine(w: World, e: Event, r: int, made: seq<int>)
    requires InLine(w, r, made) && e.Enqueue? && Outbox.Enabled(w, e)
    ensures InLine(Next(w, e), r, Made(w, e, made))
  {
    var relay := w.relays[r];
    assert made + [relay.claimed[0]] + (relay.claimed[1..] + relay.candidates) == made + (relay.claimed + relay.candidates);
  }

  lemma CallbackInLine(w: World, e: Event, r: int, made: seq<int>)
    requires Inv(w) && InLine(w, r, made) && e.Callback? && Outbox.Enabled(w, e) && Smooth(w, e, r)
    ensures InLine(Next(w, e), r, made)
  {
    var w', id := Next(w, e), w.inflight[e.pid].id;
    assert Holds(w, Flight(e.pid), id);
    assert id !in PendingIds(w.rows);
    assert PendingIds(w'.rows) == PendingIds(w.rows);
  }

  lemma SmoothStepInLine(w: World, e: Event, r: int, made: seq<int>)
    requires Inv(w) && InLine(w, r, made) && Outbox.Enabled(w, e) && Smooth(w, e, r)
    ensures InLine(Next(w, e), r, Made(w, e, made))
  {
    match e
    case SendPrivate(_, _, _, _) => SendInLine(w, e, r, made);
    case Boot(_, stuck) => assert AfterReclaim(w.rows, stuck) == w.rows;
    case Select(_, _) => SelectInLine(w, e, r, made);
    case Claim(_, _) => ClaimInLine(w, e, r, made);
    case Enqueue(_, _) => EnqueueInLine(w, e, r, made);
    case Callback(_, _, _) => CallbackInLine(w, e, r, made);
    case _ =>
  }

  lemma {:induction false} SmoothRunInLine(run: seq<World>, es: seq<Event>, r: int, k: nat)
    requires IsRun(run, es) && run[0] == EMPTY && k <= |es| && forall i :: 0 <= i < |es| ==> Smooth(run[i], es[i], r)
    ensures Inv(run[k]) && InLine(run[k], r, Produced(run, es, k))
  {
    if k > 0 {
      SmoothRunInLine(run, es, r, k - 1);
      assert Linked(run, es, k - 1);
      NextKeepsInv(run[k - 1], es[k - 1]);
      SmoothStepInLine(run[k - 1], es[k - 1], r, Produced(run, es, k - 1));
    }
  }

  /** In a smooth run the rows are handed to Kafka in the order of their ids, none twice. */
  lemma ProducedInOrder(run: seq<World>, es: seq<Event>, r: int)
    requires IsRun(run, es) && run[0] == EMPTY && forall i :: 0 <= i < |es| ==> Smooth(run[i], es[i], r)
    ensures Ascending(Produced(run, es, |es|))
  {
    SmoothRunInLine(run, es, r, |es|);
    var w, made := run[|es|], Produced(run, es, |es|);
    forall i, j | 0 <= i < j < |made| ensures made[i] < made[j] {
      assert (made + Waiting(w, r))[i] == made[i] && (made + Waiting(w, r))[j] == made[j];
    }
  }

  // ----- the exact condition -----

  lemma AscendingPrefix(s: seq<int>, t: seq<int>)
    requires Ascending(s + t)
    ensures Ascending(s)
  {
    forall i, j | 0 <= i < j < |s| ensures s[i] < s[j] {
      assert (s + t)[i] == s[i] && (s + t)[j] == s[j];
    }
  }

  /** Handing over a batch after what was handed over before keeps the order if and only if no pending row lies behind. */
  lemma BatchInOrderIff(w: World, ids: seq<int>, made: seq<int>)
    requires IsBatch(w.rows, ids) && ids != [] && Ascending(made)
    ensures Ascending(made + ids) <==> forall id :: id in PendingIds(w.rows) ==> Above(made, id)
  {
    if forall id :: id in PendingIds(w.rows) ==> Above(made, id) {
      BatchAscends(w, ids, made);
    }
    if Ascending(made + ids) {
      forall id | id in PendingIds(w.rows) ensures Above(made, id) {
        var first := ids[0];
        assert first in ids;
        assert first <= id by {
          if id in ids {
            var j :| 0 <= j < |ids| && ids[j] == id;
          }
        }
        forall i | 0 <= i < |made| ensures made[i] < id {
          assert (made + ids)[i] == made[i] && (made + ids)[|made|] == first;
        }
      }
    }
  }

  /** One relay, whose batches go through: every update runs, every produce is accepted. Rows may be committed in any order
      of ids, and deliveries may fail. */
  predicate Steady(e: Event, r: int) {
    match e
    case Boot(x, _) => x == r
    case Claim(_, ran) => ran
    case Refuse(_, _) => false
    case Kill(_) => false
    case _ => true
  }

  /** The one relay selected rows that are still pending. */
  ghost predicate Alone(w: World, r: int) {
    && w.relays.Keys <= {r}
    && (r in w.relays ==> forall id :: id in w.relays[r].candidates ==> id in PendingIds(w.rows))
    && (r in w.relays ==> Ascending(w.relays[r].candidates))
  }

  lemma StepAlone(w: World, e: Event, r: int)
    requires Inv(w) && Alone(w, r) && Outbox.Enabled(w, e) && Steady(e, r)
    ensures Alone(Next(w, e), r)
  {
    var w' := Next(w, e);
    if e.Callback? {
      assert Holds(w, Flight(e.pid), w.inflight[e.pid].id);
    } else if e.Claim? {
      ClaimAlone(w, e, r);
    }
  }

  lemma ClaimAlone(w: World, e: Event, r: int)
    requires Alone(w, r) && e.Claim? && Outbox.Enabled(w, e) && Steady(e, r)
    ensures Alone(Next(w, e), r)
    ensures Waiting(Next(w, e), r) == Waiting(w, r)
  {
    var w', relay := Next(w, e), w.relays[r];
    var id, rest := relay.candidates[0], relay.candidates[1..];
    assert id in relay.candidates && id in PendingIds(w.rows);
    assert relay.candidates == [id] + rest;
    forall x | x in rest ensures x != id && x in PendingIds(w'.rows) {
      var j :| 0 <= j < |rest| && rest[j] == x;
      assert relay.candidates[j + 1] == x && x in relay.candidates;
    }
  }

  lemma SelectQueues(w: World, e: Event, r: int)
    requires Alone(w, r) && e.Select? && Outbox.Enabled(w, e)
    ensures Waiting(w, r) == [] && Waiting(Next(w, e), r) == e.ids
  {
    assert e.relay == r;
    assert [] + e.ids == e.ids;
  }

  lemma EnqueueQueues(w: World, e: Event, r: int, made: seq<int>)
    requires Alone(w, r) && e.Enqueue? && Outbox.Enabled(w, e)
    ensures Made(w, e, made) + Waiting(Next(w, e), r) == made + Waiting(w, r)
  {
    var relay := w.relays[r];
    assert made + [relay.claimed[0]] + (relay.claimed[1..] + relay.candidates) == made + (relay.claimed + relay.candidates);
  }

  lemma OthersQueueNothing(w: World, e: Event, r: int)
    requires Alone(w, r) && Outbox.Enabled(w, e) && Steady(e, r) && !e.Select? && !e.Claim? && !e.Enqueue?
    ensures Waiting(Next(w, e), r) == Waiting(w, r)
  {
    assert !e.Boot? ==> Next(w, e).relays == w.relays;
  }

  /** A step appends to what is handed over or waits for it exactly the batch it selects. */
  lemma StepQueues(w: World, e: Event, r: int, made: seq<int>)
    requires Alone(w, r) && Outbox.Enabled(w, e) && Steady(e, r)
    ensures e.Select? ==> Waiting(w, r) == [] && Made(w, e, made) + Waiting(Next(w, e), r) == made + e.ids
    ensures !e.Select? ==> Made(w, e, made) + Waiting(Next(w, e), r) == made + Waiting(w, r)
  {
    if e.Select? {
      SelectQueues(w, e, r);
    } else if e.Claim? {
      ClaimAlone(w, e, r);
    } else if e.Enqueue? {
      EnqueueQueues(w, e, r, made);
    } else {
      OthersQueueNothing(w, e, r);
    }
  }

  /** When event i selects a batch, no pending row lies behind a row already handed over. */
  ghost predicate NothingBehind(run: seq<World>, es: seq<Event>, i: nat)
    requires IsRun(run, es) && i < |es|
  {
    es[i].Select? && es[i].ids != [] ==> forall id :: id in PendingIds(run[i].rows) ==> Above(Produced(run, es, i), id)
  }

  /** That was so for the first k events. */
  ghost predicate NeverBehind(run: seq<World>, es: seq<Event>, k: nat)
    requires IsRun(run, es) && k <= |es|
  {
    k > 0 ==> NeverBehind(run, es, k - 1) && NothingBehind(run, es, k - 1)
  }

  /** What was handed over, then what waits for it. */
  ghost function Queue(run: seq<World>, es: seq<Event>, r: int, k: nat): seq<int>
    requires IsRun(run, es) && k <= |es|
  {
    Produced(run, es, k) + Waiting(run[k], r)
  }

  lemma {:induction false} SteadyAlone(run: seq<World>, es: seq<Event>, r: int, k: nat)
    requires IsRun(run, es) && run[0] == EMPTY && k <= |es| && forall i :: 0 <= i < |es| ==> Steady(es[i], r)
    ensures Inv(run[k]) && Alone(run[k], r)
  {
    if k > 0 {
      SteadyAlone(run, es, r, k - 1);
      assert Linked(run, es, k - 1);
      NextKeepsInv(run[k - 1], es[k - 1]);
      StepAlone(run[k - 1], es[k - 1], r);
    }
  }

  lemma StepQueued(run: seq<World>, es: seq<Event>, r: int, i: nat)
    requires IsRun(run, es) && i < |es| && Inv(run[i]) && Alone(run[i], r) && Steady(es[i], r)
    ensures es[i].Select? ==> Waiting(run[i], r) == [] && Queue(run, es, r, i + 1) == Produced(run, es, i) + es[i].ids
    ensures !es[i].Select? ==> Queue(run, es, r, i + 1) == Queue(run, es, r, i)
  {
    assert Linked(run, es, i);
    StepQueues(run[i], es[i], r, Produced(run, es, i));
  }

  lemma {:induction false} QueuedInOrderIff(run: seq<World>, es: seq<Event>, r: int, k: nat)
    requires IsRun(run, es) && run[0] == EMPTY && k <= |es| && forall i :: 0 <= i < |es| ==> Steady(es[i], r)
    ensures Ascending(Queue(run, es, r, k)) <==> NeverBehind(run, es, k)
  {
    if k > 0 {
      QueuedInOrderIff(run, es, r, k - 1);
      SteadyAlone(run, es, r, k - 1);
      StepQueued(run, es, r, k - 1);
      QueueStepIff(run, es, r, k - 1);
    }
  }

  lemma QueueStepIff(run: seq<World>, es: seq<Event>, r: int, i: nat)
    requires IsRun(run, es) && i < |es|
    requires es[i].Select? ==> Waiting(run[i], r) == [] && Queue(run, es, r, i + 1) == Produced(run, es, i) + es[i].ids
    requires !es[i].Select? ==> Queue(run, es, r, i + 1) == Queue(run, es, r, i)
    ensures Ascending(Queue(run, es, r, i + 1)) <==> Ascending(Queue(run, es, r, i)) && NothingBehind(run, es, i)
  {
    assert Linked(run, es, i);
    if es[i].Select? {
      var made, ids := Produced(run, es, i), es[i].ids;
      assert Queue(run, es, r, i) == made;
      if ids == [] {
        assert made + ids == made;
      } else if Ascending(made) {
        BatchInOrderIff(run[i], ids, made);
      } else if Ascending(made + ids) {
        AscendingPrefix(made, ids);
      }
    }
  }

  /** With one relay whose batches go through, what was handed over is in the order of ids, none twice, if and only if no
      batch was selected while a pending row lay behind one already handed over. */
  lemma BatchesInOrderIff(run: seq<World>, es: seq<Event>, r: int)
    requires IsRun(run, es) && run[0] == EMPTY && (forall i :: 0 <= i < |es| ==> Steady(es[i], r)) && Waiting(run[|es|], r) == []
    ensures Ascending(Produced(run, es, |es|)) <==> forall i :: 0 <= i < |es| ==> NothingBehind(run, es, i)
  {
    QueuedInOrderIff(run, es, r, |es|);
    NeverBehindIsAll(run, es, |es|);
    assert Queue(run, es, r, |es|) == Produced(run, es, |es|);
  }

  lemma {:induction false} NeverBehindIsAll(run: seq<World>, es: seq<Event>, k: nat)
    requires IsRun(run, es) && k <= |es|
    ensures NeverBehind(run, es, k) <==> forall i :: 0 <= i < k ==> NothingBehind(run, es, i)
  {
    if k > 0 {
      NeverBehindIsAll(run, es, k - 1);
    }
  }

  // ----- every run of one relay -----

  /** No row was handed over since the last batch was selected. */
  ghost predicate FirstOfBatch(es: seq<Event>, i: nat)
    requires i <= |es|
  {
    i == 0 || es[i - 1].Select? || es[i - 1].Kill? || (!es[i - 1].Enqueue? && FirstOfBatch(es, i - 1))
  }

  ghost function HandedOver(run: seq<World>, es: seq<Event>, i: nat): int
    requires IsRun(run, es) && i < |es| && es[i].Enqueue?
  {
    assert Linked(run, es, i);
    run[i].relays[es[i].relay].claimed[0]
  }

  /** If event i hands over the first row of a batch, all rows handed over before lie below it. */
  ghost predicate InFront(run: seq<World>, es: seq<Event>, i: nat)
    requires IsRun(run, es) && i < |es|
  {
    es[i].Enqueue? && FirstOfBatch(es, i) ==> Above(Produced(run, es, i), HandedOver(run, es, i))
  }

  ghost predicate AlwaysInFront(run: seq<World>, es: seq<Event>, k: nat)
    requires IsRun(run, es) && k <= |es|
  {
    k > 0 ==> AlwaysInFront(run, es, k - 1) && InFront(run, es, k - 1)
  }

  /** One relay at most; what waits ascends, beyond what its batch has already handed over. */
  ghost predicate WaitsInOrder(w: World, r: int, made: seq<int>, unbegun: bool) {
    && w.relays.Keys <= {r} && Ascending(Waiting(w, r))
    && (!unbegun ==> made != [] && forall i :: 0 <= i < |Waiting(w, r)| ==> made[|made| - 1] < Waiting(w, r)[i])
  }

  lemma AscendingWithout(s: seq<int>, k: nat)
    requires Ascending(s) && k < |s|
    ensures Ascending(s[..k] + s[k + 1..])
  {
    var t := s[..k] + s[k + 1..];
    assert forall i :: 0 <= i < |t| ==> t[i] == s[if i < k then i else i + 1];
  }

  /** A step that takes one element out of what waits, or none, keeps it in order. */
  lemma StillInOrder(w: World, w': World, r: int, made: seq<int>, unbegun: bool, k: nat)
    requires WaitsInOrder(w, r, made, unbegun) && w'.relays.Keys <= {r}
    requires Waiting(w', r) == Waiting(w, r) || (k < |Waiting(w, r)| && Waiting(w', r) == Waiting(w, r)[..k] + Waiting(w, r)[k + 1..])
    ensures WaitsInOrder(w', r, made, unbegun)
  {
    var s, t := Waiting(w, r), Waiting(w', r);
    if t != s {
      AscendingWithout(s, k);
      assert forall i :: 0 <= i < |t| ==> t[i] == s[if i < k then i else i + 1];
    }
  }

  lemma ClaimWaits(w: World, e: Event, r: int, made: seq<int>, unbegun: bool)
    requires WaitsInOrder(w, r, made, unbegun) && e.Claim? && Outbox.Enabled(w, e)
    ensures WaitsInOrder(Next(w, e), r, made, unbegun)
  {
    var relay := w.relays[r];
    var id, rest, k := relay.candidates[0], relay.candidates[1..], |relay.claimed|;
    var s := relay.claimed + relay.candidates;
    assert relay.claimed + [id] + rest == s;
    assert s[..k] + s[k + 1..] == relay.claimed + rest;
    StillInOrder(w, Next(w, e), r, made, unbegun, k);
  }

  lemma RefuseWaits(w: World, e: Event, r: int, made: seq<int>, unbegun: bool)
    requires WaitsInOrder(w, r, made, unbegun) && e.Refuse? && Outbox.Enabled(w, e)
    ensures WaitsInOrder(Next(w, e), r, made, unbegun)
  {
    var relay := w.relays[r];
    var s := relay.claimed + relay.candidates;
    assert s[..0] + s[1..] == relay.claimed[1..] + relay.candidates;
    StillInOrder(w, Next(w, e), r, made, unbegun, 0);
  }

  lemma EnqueueWaits(w: World, e: Event, r: int, made: seq<int>, unbegun: bool)
    requires WaitsInOrder(w, r, made, unbegun) && e.Enqueue? && Outbox.Enabled(w, e)
    ensures WaitsInOrder(Next(w, e), r, Made(w, e, made), false)
    ensures !unbegun ==> made != [] && made[|made| - 1] < w.relays[r].claimed[0]
  {
    var relay := w.relays[r];
    var s, t := relay.claimed + relay.candidates, relay.claimed[1..] + relay.candidates;
    assert s[0] == relay.claimed[0] && forall i :: 0 <= i < |t| ==> t[i] == s[i + 1];
  }

  lemma SelectWaits(w: World, e: Event, r: int, made: seq<int>)
    requires w.relays.Keys <= {r} && e.Select? && Outbox.Enabled(w, e)
    ensures WaitsInOrder(Next(w, e), r, made, true)
  {
    assert Waiting(Next(w, e), r) == e.ids;
  }

  predicate AtMostOneRelay(e: Event, r: int) {
    e.Boot? ==> e.relay == r
  }

  lemma OthersWait(w: World, e: Event, r: int, made: seq<int>, unbegun: bool)
    requires WaitsInOrder(w, r, made, unbegun) && Outbox.Enabled(w, e) && AtMostOneRelay(e, r)
    requires !e.Select? && !e.Claim? && !e.Refuse? && !e.Enqueue? && !e.Kill?
    ensures WaitsInOrder(Next(w, e), r, made, unbegun)
  {
    assert !e.Boot? ==> Next(w, e).relays == w.relays;
    StillInOrder(w, Next(w, e), r, made, unbegun, 0);
  }

  lemma StepWaits(w: World, e: Event, r: int, made: seq<int>, unbegun: bool)
    requires WaitsInOrder(w, r, made, unbegun) && Outbox.Enabled(w, e) && AtMostOneRelay(e, r)
    ensures WaitsInOrder(Next(w, e), r, Made(w, e, made), e.Select? || e.Kill? || (!e.Enqueue? && unbegun))
  {
    if e.Select? {
      SelectWaits(w, e, r, made);
    } else if e.Claim? {
      ClaimWaits(w, e, r, made, unbegun);
    } else if e.Refuse? {
      RefuseWaits(w, e, r, made, unbegun);
    } else if e.Enqueue? {
      EnqueueWaits(w, e, r, made, unbegun);
    } else if !e.Kill? {
      OthersWait(w, e, r, made, unbegun);
    }
  }

  lemma {:induction false} RunWaits(run: seq<World>, es: seq<Event>, r: int, k: nat)
    requires IsRun(run, es) && run[0] == EMPTY && k <= |es| && forall i :: 0 <= i < |es| ==> AtMostOneRelay(es[i], r)
    ensures WaitsInOrder(run[k], r, Produced(run, es, k), FirstOfBatch(es, k))
  {
    if k > 0 {
      RunWaits(run, es, r, k - 1);
      assert Linked(run, es, k - 1);
      StepWaits(run[k - 1], es[k - 1], r, Produced(run, es, k - 1), FirstOfBatch(es, k - 1));
    }
  }

  lemma AscendingSnoc(s: seq<int>, x: int)
    ensures Ascending(s + [x]) <==> Ascending(s) && Above(s, x)
    ensures s != [] && Ascending(s) && s[|s| - 1] < x ==> Above(s, x)
  {
    var t := s + [x];
    assert t[|s|] == x && forall i :: 0 <= i < |s| ==> t[i] == s[i];
  }

  lemma {:induction false} InFrontSoFar(run: seq<World>, es: seq<Event>, r: int, k: nat)
    requires IsRun(run, es) && run[0] == EMPTY && k <= |es| && forall i :: 0 <= i < |es| ==> AtMostOneRelay(es[i], r)
    ensures Ascending(Produced(run, es, k)) <==> AlwaysInFront(run, es, k)
  {
    if k > 0 {
      InFrontSoFar(run, es, r, k - 1);
      if es[k - 1].Enqueue? {
        var made, x := Produced(run, es, k - 1), HandedOver(run, es, k - 1);
        assert Linked(run, es, k - 1);
        RunWaits(run, es, r, k - 1);
        EnqueueWaits(run[k - 1], es[k - 1], r, made, FirstOfBatch(es, k - 1));
        AscendingSnoc(made, x);
      }
    }
  }

  lemma {:induction false} AlwaysInFrontIsAll(run: seq<World>, es: seq<Event>, k: nat)
    requires IsRun(run, es) && k <= |es|
    ensures AlwaysInFront(run, es, k) <==> forall i :: 0 <= i < k ==> InFront(run, es, i)
  {
    if k > 0 {
      AlwaysInFrontIsAll(run, es, k - 1);
    }
  }

  /** For every run of one relay, with updates that fail, produces that are refused, deliveries that fail, restarts and rows
      committed in any order: the rows are handed to Kafka in the order of their ids, none twice, if and only if the first
      row that each batch hands over lies above all rows handed over before. */
  lemma ProducedInOrderIff(run: seq<World>, es: seq<Event>, r: int)
    requires IsRun(run, es) && run[0] == EMPTY && forall i :: 0 <= i < |es| ==> AtMostOneRelay(es[i], r)
    ensures Ascending(Produced(run, es, |es|)) <==> forall i :: 0 <= i < |es| ==> InFront(run, es, i)
  {
    InFrontSoFar(run, es, r, |es|);
    AlwaysInFrontIsAll(run, es, |es|);
  }
}
