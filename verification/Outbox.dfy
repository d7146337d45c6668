/** Transactional outbox and relays of src/server/OutboxService.h, with the transaction of ChatServer::handlePrivateMessage.
    Relays interleave row by row; deliveries are acknowledged later or never; a relay may die at any point. */
module Outbox {
  import opened Pigeonhole

  datatype Status = Pending | Sending | Sent
  datatype Message = Message(msgId: string, from: int, to: int, content: string, timestamp: int)
  datatype Row = Row(topic: string, key: string, payload: Message, status: Status, retries: nat)
  datatype Record = Record(topic: string, key: string, payload: Message)

  /** One relay: rows read but not yet claimed, then rows claimed but not yet handed to Kafka. */
  datatype Relay = Relay(candidates: seq<int>, claimed: seq<int>)

  /** An outstanding produce: the relay waiting for the callback, the row, and whether the broker has it. */
  datatype Produce = Produce(relay: int, id: int, stored: bool)
  datatype Delivery = Delivery(id: int, record: Record)

  datatype World = World(
    messages: map<string, Message>,
    rows: map<int, Row>,
    origin: map<string, int>,          // which outbox row was committed with which message; none for one stored aside
    relays: map<int, Relay>,
    inflight: map<int, Produce>,
    orphans: map<int, Produce>,        // produces whose relay died: the broker may still get them
    kafka: seq<Delivery>,
    acked: set<int>)

  datatype Event =
    | SendPrivate(msg: Message, id: int, topic: string, key: string)
    | StoreAside(msg: Message)         // savePrivateMessage outside the transaction
    | Boot(relay: int, stuck: set<int>)
    | Select(relay: int, ids: seq<int>)
    | Claim(relay: int, ran: bool)
    | Enqueue(relay: int, pid: int)
    | Refuse(relay: int, dbUp: bool)
    | Store(pid: int)
    | Callback(pid: int, ok: bool, dbUp: bool)
    | Kill(relay: int)
    | StoreLate(pid: int)

  const BATCH := 100

  function Content(r: Row): Record {
    Record(r.topic, r.key, r.payload)
  }

  function PendingIds(rows: map<int, Row>): set<int> {
    set id | id in rows && rows[id].status == Pending
  }

  /** ids is what SELECT ... WHERE status='pending' ORDER BY id LIMIT 100 returns. */
  ghost predicate IsBatch(rows: map<int, Row>, ids: seq<int>) {
    && |ids| <= BATCH
    && (forall i, j :: 0 <= i < j < |ids| ==> ids[i] < ids[j])
    && (forall id :: id in ids ==> id in PendingIds(rows))
    && (forall id :: id in PendingIds(rows) && id !in ids ==> |ids| == BATCH && forall x :: x in ids ==> x < id)
  }

  /** onDelivery: sent on success, back to pending on failure, untouched if the database cannot be reached. */
  function AfterDelivery(rows: map<int, Row>, id: int, ok: bool, dbUp: bool): map<int, Row> {
    if !dbUp || id !in rows then rows
    else if ok then rows[id := rows[id].(status := Sent)]
    else rows[id := rows[id].(status := Pending, retries := rows[id].retries + 1)]
  }

  /** reclaimStuckSending: the rows in sending old enough for the restarted process to take back. */
  function AfterReclaim(rows: map<int, Row>, stuck: set<int>): map<int, Row> {
    map id | id in rows :: if id in stuck && rows[id].status == Sending then rows[id].(status := Pending) else rows[id]
  }

  ghost predicate Enabled(w: World, e: Event) {
    match e
    case SendPrivate(msg, id, _, _) => msg.msgId !in w.messages && id !in w.rows
    case StoreAside(msg) => msg.msgId !in w.messages
    case Boot(r, stuck) => r !in w.relays && (stuck != {} ==> w.relays == map[])
    case Select(r, ids) => r in w.relays && w.relays[r] == Relay([], []) && IsBatch(w.rows, ids)
    case Claim(r, _) => r in w.relays && w.relays[r].candidates != []
    case Enqueue(r, pid) =>
      r in w.relays && w.relays[r].candidates == [] && w.relays[r].claimed != [] && pid !in w.inflight && pid !in w.orphans
    case Refuse(r, _) => r in w.relays && w.relays[r].candidates == [] && w.relays[r].claimed != []
    case Store(pid) => pid in w.inflight && w.inflight[pid].id in w.rows
    case Callback(pid, ok, _) => pid in w.inflight && (ok ==> w.inflight[pid].stored)
    case Kill(r) => r in w.relays
    case StoreLate(pid) => pid in w.orphans && w.orphans[pid].id in w.rows
  }

  ghost function Next(w: World, e: Event): World
    requires Enabled(w, e)
  {
    match e
    case SendPrivate(msg, id, topic, key) =>
      w.(messages := w.messages[msg.msgId := msg],
         rows := w.rows[id := Row(topic, key, msg, Pending, 0)],
         origin := w.origin[msg.msgId := id])
    case StoreAside(msg) => w.(messages := w.messages[msg.msgId := msg])
    case Boot(r, stuck) =>
      w.(rows := AfterReclaim(w.rows, stuck), relays := w.relays[r := Relay([], [])])
    case Select(r, ids) =>
      w.(relays := w.relays[r := Relay(ids, [])])
    case Claim(r, ran) =>
      var relay := w.relays[r];
      var id, rest := relay.candidates[0], relay.candidates[1..];
      if ran && id in w.rows && w.rows[id].status == Pending then
        w.(rows := w.rows[id := w.rows[id].(status := Sending)],
           relays := w.relays[r := Relay(rest, relay.claimed + [id])])
      else
        w.(relays := w.relays[r := relay.(candidates := rest)])
    case Enqueue(r, pid) =>
      var relay := w.relays[r];
      w.(relays := w.relays[r := relay.(claimed := relay.claimed[1..])],
         inflight := w.inflight[pid := Produce(r, relay.claimed[0], false)])
    case Refuse(r, dbUp) =>
      var relay := w.relays[r];
      w.(relays := w.relays[r := relay.(claimed := relay.claimed[1..])],
         rows := AfterDelivery(w.rows, relay.claimed[0], false, dbUp))
    case Store(pid) =>
      var id := w.inflight[pid].id;
      w.(kafka := w.kafka + [Delivery(id, Content(w.rows[id]))], inflight := w.inflight[pid := w.inflight[pid].(stored := true)])
    case Callback(pid, ok, dbUp) =>
      var id := w.inflight[pid].id;
      w.(rows := AfterDelivery(w.rows, id, ok, dbUp),
         inflight := w.inflight - {pid},
         acked := if ok then w.acked + {id} else w.acked)
    case Kill(r) =>
      w.(relays := w.relays - {r},
         inflight := map pid | pid in w.inflight && w.inflight[pid].relay != r :: w.inflight[pid],
         orphans := w.orphans + (map pid | pid in w.inflight && w.inflight[pid].relay == r :: w.inflight[pid]))
    case StoreLate(pid) =>
      var id := w.orphans[pid].id;
      w.(kafka := w.kafka + [Delivery(id, Content(w.rows[id]))])
  }

  ghost predicate Linked(run: seq<World>, i: nat)
    requires i + 1 < |run|
  {
    exists e :: Enabled(run[i], e) && Next(run[i], e) == run[i + 1]
  }

  /** run is a sequence of worlds from w to w', each one step after the one before. */
  ghost predicate Leads(w: World, run: seq<World>, w': World) {
    && |run| > 0 && run[0] == w && run[|run| - 1] == w'
    && forall i: nat {:trigger Linked(run, i)} :: i + 1 < |run| ==> Linked(run, i)
  }

  lemma LeadsSnoc(w: World, run: seq<World>, w': World, e: Event)
    requires Leads(w, run, w') && Enabled(w', e)
    ensures Leads(w, run + [Next(w', e)], Next(w', e))
  {
    var run' := run + [Next(w', e)];
    forall i: nat | i + 1 < |run'| ensures Linked(run', i) {
      if i + 1 < |run| {
        assert Linked(run, i);
        assert run'[i] == run[i] && run'[i + 1] == run[i + 1];
      } else {
        assert run'[i] == w' && run'[i + 1] == Next(w', e);
      }
    }
  }

  lemma LeadsThrough(w: World, run: seq<World>, w': World, more: seq<World>, w'': World)
    requires Leads(w, run, w') && Leads(w', more, w'')
    ensures Leads(w, run + more[1..], w'')
  {
    var all := run + more[1..];
    forall i: nat | i + 1 < |all| ensures Linked(all, i) {
      if i + 1 < |run| {
        assert Linked(run, i);
        assert all[i] == run[i] && all[i + 1] == run[i + 1];
      } else {
        assert Linked(more, i + 1 - |run|);
        assert all[i] == more[i + 1 - |run|] && all[i + 1] == more[i + 2 - |run|];
      }
    }
  }

  const EMPTY := World(map[], map[], map[], map[], map[], map[], [], {})

  // ----- who answers for a row -----

  datatype Holder = Batch(relay: int) | Flight(pid: int)

  ghost predicate Holds(w: World, h: Holder, id: int) {
    match h
    case Batch(r) => r in w.relays && id in w.relays[r].claimed
    case Flight(pid) => pid in w.inflight && w.inflight[pid].id == id
  }

  /** A held row is in sending, and nobody else holds it. */
  ghost predicate AtMostOneHolder(w: World) {
    && (forall h, id {:trigger Holds(w, h, id)} :: Holds(w, h, id) ==> id in w.rows && w.rows[id].status == Sending)
    && (forall h, h', id {:trigger Holds(w, h, id), Holds(w, h', id)} :: Holds(w, h, id) && Holds(w, h', id) ==> h == h')
  }

  ghost predicate RelaysOk(w: World) {
    && (forall r :: r in w.relays ==> NoDuplicates(w.relays[r].claimed))
    && (forall pid :: pid in w.inflight ==> w.inflight[pid].relay in w.relays)
  }

  ghost predicate Stored(w: World, id: int) {
    exists k :: 0 <= k < |w.kafka| && w.kafka[k].id == id
  }

  /** A message sent by the transaction and its outbox row exist together and say the same; every row has its message. */
  ghost predicate Paired(w: World) {
    && w.origin.Keys <= w.messages.Keys
    && (forall m :: m in w.messages ==> w.messages[m].msgId == m)
    && (forall m :: m in w.origin ==> w.origin[m] in w.rows && w.rows[w.origin[m]].payload == w.messages[m])
    && (forall id :: id in w.rows ==> w.rows[id].payload.msgId in w.origin && w.origin[w.rows[id].payload.msgId] == id)
  }

  /** Sent means acknowledged, acknowledged means in Kafka, in Kafka means committed with that content. */
  ghost predicate Traced(w: World) {
    && (forall id :: id in w.rows && w.rows[id].status == Sent ==> id in w.acked)
    && (forall id :: id in w.acked ==> id in w.rows && Stored(w, id))
    && (forall pid :: pid in w.inflight && w.inflight[pid].stored ==> Stored(w, w.inflight[pid].id))
    && (forall k :: 0 <= k < |w.kafka| ==> w.kafka[k].id in w.rows && Content(w.rows[w.kafka[k].id]) == w.kafka[k].record)
  }

  // ----- every step keeps it -----

  /** A step that only touches row c, and leaves it with at most the one holder named. */
  lemma OnlyHolder(w: World, w': World, c: int, holder: Holder)
    requires AtMostOneHolder(w)
    requires forall h, id {:trigger Holds(w', h, id)} ::
               Holds(w', h, id) ==> if id == c then h == holder && c in w'.rows && w'.rows[c].status == Sending else Holds(w, h, id)
    requires forall id :: id != c && id in w.rows ==> id in w'.rows && w'.rows[id].status == w.rows[id].status
    ensures AtMostOneHolder(w')
  {
  }

  /** A step that releases rows or leaves them alone. */
  lemma NoNewHolder(w: World, w': World)
    requires AtMostOneHolder(w)
    requires forall h, id {:trigger Holds(w', h, id)} :: Holds(w', h, id) ==>
               Holds(w, h, id) && (id in w.rows ==> id in w'.rows && w'.rows[id].status == w.rows[id].status)
    ensures AtMostOneHolder(w')
  {
  }

  lemma TailHolds(s: seq<int>, id: int)
    requires s != [] && NoDuplicates(s)
    ensures NoDuplicates(s[1..]) && (id in s[1..] <==> id in s && id != s[0])
  {
  }

  lemma ClaimKeepsHolders(w: World, r: int, ran: bool)
    requires AtMostOneHolder(w) && Enabled(w, Claim(r, ran))
    ensures AtMostOneHolder(Next(w, Claim(r, ran)))
  {
    var w' := Next(w, Claim(r, ran));
    var c := w.relays[r].candidates[0];
    if ran && c in w.rows && w.rows[c].status == Pending {
      forall h, id | Holds(w', h, id) && !(id == c && h == Batch(r)) ensures Holds(w, h, id) && id != c {
        assert Holds(w, h, id);
      }
      OnlyHolder(w, w', c, Batch(r));
    } else {
      NoNewHolder(w, w');
    }
  }

  /** Once the relay that holds a row lets go of it, nobody holds it. */
  lemma Released(w: World, w': World, r: int, h: Holder, id: int)
    requires AtMostOneHolder(w) && RelaysOk(w) && r in w.relays && w.relays[r].claimed != []
    requires w'.relays == w.relays[r := w.relays[r].(claimed := w.relays[r].claimed[1..])]
    requires Holds(w', h, id) && (h.Flight? ==> h.pid in w.inflight && w.inflight[h.pid].id == id)
    ensures Holds(w, h, id) && id != w.relays[r].claimed[0]
  {
    TailHolds(w.relays[r].claimed, id);
    assert Holds(w, Batch(r), w.relays[r].claimed[0]);
    assert Holds(w, h, id);
  }

  lemma EnqueueKeepsHolders(w: World, r: int, pid: int)
    requires AtMostOneHolder(w) && RelaysOk(w) && Enabled(w, Enqueue(r, pid))
    ensures AtMostOneHolder(Next(w, Enqueue(r, pid)))
  {
    var w' := Next(w, Enqueue(r, pid));
    var c := w.relays[r].claimed[0];
    assert Holds(w, Batch(r), c);
    forall h, id | Holds(w', h, id) && h != Flight(pid) ensures Holds(w, h, id) && id != c {
      Released(w, w', r, h, id);
    }
    OnlyHolder(w, w', c, Flight(pid));
  }

  lemma RefuseKeepsHolders(w: World, r: int, dbUp: bool)
    requires AtMostOneHolder(w) && RelaysOk(w) && Enabled(w, Refuse(r, dbUp))
    ensures AtMostOneHolder(Next(w, Refuse(r, dbUp)))
  {
    var w' := Next(w, Refuse(r, dbUp));
    forall h, id | Holds(w', h, id) ensures Holds(w, h, id) && id != w.relays[r].claimed[0] {
      Released(w, w', r, h, id);
    }
    NoNewHolder(w, w');
  }

  lemma CallbackKeepsHolders(w: World, e: Event)
    requires AtMostOneHolder(w) && e.Callback? && Enabled(w, e)
    ensures AtMostOneHolder(Next(w, e))
  {
    var w' := Next(w, e);
    assert Holds(w, Flight(e.pid), w.inflight[e.pid].id);
    forall h, id | Holds(w', h, id) ensures Holds(w, h, id) && id != w.inflight[e.pid].id {
      assert Holds(w, h, id);
    }
    NoNewHolder(w, w');
  }

  lemma HoldersKept(w: World, e: Event)
    requires AtMostOneHolder(w) && RelaysOk(w) && Enabled(w, e)
    ensures AtMostOneHolder(Next(w, e))
  {
    match e
    case Claim(r, ran) => ClaimKeepsHolders(w, r, ran);
    case Enqueue(r, pid) => EnqueueKeepsHolders(w, r, pid);
    case Refuse(r, dbUp) => RefuseKeepsHolders(w, r, dbUp);
    case Boot(r, stuck) =>
      if stuck != {} {
        assert forall pid :: pid !in w.inflight;
      }
      NoNewHolder(w, Next(w, e));
    case Callback(pid, _, _) => CallbackKeepsHolders(w, e);
    case _ => NoNewHolder(w, Next(w, e));
  }

  lemma RelaysKept(w: World, e: Event)
    requires AtMostOneHolder(w) && RelaysOk(w) && Enabled(w, e)
    ensures RelaysOk(Next(w, e))
  {
    if e.Claim? {
      var c := w.relays[e.relay].candidates[0];
      assert c in w.relays[e.relay].claimed ==> Holds(w, Batch(e.relay), c);
    }
  }

  lemma StoredMonotone(w: World, w': World, id: int)
    requires Stored(w, id) && |w.kafka| <= |w'.kafka| && w'.kafka[..|w.kafka|] == w.kafka
    ensures Stored(w', id)
  {
    var k :| 0 <= k < |w.kafka| && w.kafka[k].id == id;
    assert w'.kafka[..|w.kafka|][k] == w.kafka[k];
  }

  /** Rows are never deleted and never change what they say. */
  lemma ContentKept(w: World, e: Event, id: int)
    requires Enabled(w, e) && id in w.rows
    ensures id in Next(w, e).rows && Content(Next(w, e).rows[id]) == Content(w.rows[id])
  {
  }

  lemma PairedFrame(w: World, w': World)
    requires Paired(w) && w'.messages == w.messages && w'.origin == w.origin && w'.rows.Keys == w.rows.Keys
    requires forall id :: id in w.rows ==> w'.rows[id].payload == w.rows[id].payload
    ensures Paired(w')
  {
    forall m | m in w'.origin ensures w'.origin[m] in w'.rows && w'.rows[w'.origin[m]].payload == w'.messages[m] {
      var id := w.origin[m];
      assert id in w.rows && w.rows[id].payload == w.messages[m];
      assert w'.rows[id].payload == w.rows[id].payload;
    }
  }

  /** The transaction of handlePrivateMessage adds both rows at once. */
  lemma PairedAfterSend(w: World, msg: Message, id: int, row: Row)
    requires Paired(w) && msg.msgId !in w.messages && id !in w.rows && row.payload == msg
    ensures Paired(w.(messages := w.messages[msg.msgId := msg], rows := w.rows[id := row], origin := w.origin[msg.msgId := id]))
  {
  }

  lemma PairedAfterAside(w: World, msg: Message)
    requires Paired(w) && msg.msgId !in w.messages
    ensures Paired(w.(messages := w.messages[msg.msgId := msg]))
  {
  }

  lemma PairedKept(w: World, e: Event)
    requires Paired(w) && Enabled(w, e)
    ensures Paired(Next(w, e))
  {
    var w' := Next(w, e);
    if e.SendPrivate? {
      PairedAfterSend(w, e.msg, e.id, Row(e.topic, e.key, e.msg, Pending, 0));
    } else if e.StoreAside? {
      PairedAfterAside(w, e.msg);
    } else {
      forall id | id in w.rows ensures id in w'.rows && w'.rows[id].payload == w.rows[id].payload { ContentKept(w, e, id); }
      PairedFrame(w, w');
    }
  }

  /** What one step may add: an entry for a committed row, an acknowledgement of a stored one. */
  ghost predicate Extends(w: World, w': World, acked: set<int>) {
    && |w.kafka| <= |w'.kafka| && w'.kafka[..|w.kafka|] == w.kafka
    && (forall id :: id in w.rows ==> id in w'.rows && Content(w'.rows[id]) == Content(w.rows[id]))
    && (forall id :: id in w'.rows && w'.rows[id].status == Sent ==> (id in w.rows && w.rows[id].status == Sent) || id in acked)
    && w'.acked == w.acked + acked
    && (forall id :: id in acked ==> id in w.rows && Stored(w, id))
    && (forall k :: |w.kafka| <= k < |w'.kafka| ==> w'.kafka[k].id in w.rows && Content(w.rows[w'.kafka[k].id]) == w'.kafka[k].record)
    && (forall pid :: pid in w'.inflight && w'.inflight[pid].stored ==>
          Stored(w', w'.inflight[pid].id) || (pid in w.inflight && w.inflight[pid] == w'.inflight[pid]))
  }

  lemma TracedFrame(w: World, w': World, acked: set<int>)
    requires Traced(w) && Extends(w, w', acked)
    ensures Traced(w')
  {
    forall id | Stored(w, id) ensures Stored(w', id) { StoredMonotone(w, w', id); }
    forall k | 0 <= k < |w'.kafka|
      ensures w'.kafka[k].id in w'.rows && Content(w'.rows[w'.kafka[k].id]) == w'.kafka[k].record
    {
      if k < |w.kafka| { assert w'.kafka[..|w.kafka|][k] == w.kafka[k]; }
    }
  }

  lemma TracedKept(w: World, e: Event)
    requires Traced(w) && AtMostOneHolder(w) && Enabled(w, e)
    ensures Traced(Next(w, e))
  {
    var w' := Next(w, e);
    var acked := if e.Callback? && e.ok then {w.inflight[e.pid].id} else {};
    KafkaGrows(w, e);
    forall id | id in w.rows ensures id in w'.rows && Content(w'.rows[id]) == Content(w.rows[id]) { ContentKept(w, e, id); }
    forall id | id in w'.rows && w'.rows[id].status == Sent ensures (id in w.rows && w.rows[id].status == Sent) || id in acked {
      SentByCallback(w, e, acked, id);
    }
    ExtendsByDelivery(w, e, acked);
    TracedFrame(w, w', acked);
  }

  lemma SentByCallback(w: World, e: Event, acked: set<int>, id: int)
    requires Enabled(w, e) && acked == if e.Callback? && e.ok then {w.inflight[e.pid].id} else {}
    requires id in Next(w, e).rows && Next(w, e).rows[id].status == Sent
    ensures (id in w.rows && w.rows[id].status == Sent) || id in acked
  {
    match e
    case SendPrivate(_, _, _, _) =>
    case StoreAside(_) =>
    case Boot(_, _) =>
    case Claim(_, _) =>
    case Refuse(_, _) =>
    case Callback(_, _, _) =>
    case _ =>
  }

  lemma ExtendsByDelivery(w: World, e: Event, acked: set<int>)
    requires Traced(w) && AtMostOneHolder(w) && Enabled(w, e)
    requires acked == if e.Callback? && e.ok then {w.inflight[e.pid].id} else {}
    ensures var w' := Next(w, e);
            && (forall id :: id in acked ==> id in w.rows && Stored(w, id))
            && (forall k :: |w.kafka| <= k < |w'.kafka| ==>
                  w'.kafka[k].id in w.rows && Content(w.rows[w'.kafka[k].id]) == w'.kafka[k].record)
            && (forall pid :: pid in w'.inflight && w'.inflight[pid].stored ==>
                  Stored(w', w'.inflight[pid].id) || (pid in w.inflight && w.inflight[pid] == w'.inflight[pid]))
  {
    var w' := Next(w, e);
    if e.Store? {
      assert w'.kafka[|w.kafka|].id == w.inflight[e.pid].id;
    }
    if e.Callback? {
      assert Holds(w, Flight(e.pid), w.inflight[e.pid].id);
    }
  }

  lemma KafkaGrows(w: World, e: Event)
    requires Enabled(w, e)
    ensures |w.kafka| <= |Next(w, e).kafka| && Next(w, e).kafka[..|w.kafka|] == w.kafka
  {
  }

  ghost predicate Inv(w: World) {
    AtMostOneHolder(w) && RelaysOk(w) && Paired(w) && Traced(w)
  }

  lemma NextKeepsInv(w: World, e: Event)
    requires Inv(w) && Enabled(w, e)
    ensures Inv(Next(w, e))
  {
    HoldersKept(w, e);
    RelaysKept(w, e);
    PairedKept(w, e);
    TracedKept(w, e);
  }

  /** The invariant holds in every world of a run. */
  lemma {:induction false} RunKeepsInv(w: World, run: seq<World>, w': World, k: nat)
    requires Inv(w) && Leads(w, run, w') && k < |run|
    ensures Inv(run[k])
  {
    if k > 0 {
      RunKeepsInv(w, run, w', k - 1);
      assert Linked(run, k - 1);
      var e :| Enabled(run[k - 1], e) && Next(run[k - 1], e) == run[k];
      NextKeepsInv(run[k - 1], e);
    }
  }

  // ----- the guarantees over every run -----

  lemma Reachable(run: seq<World>, w: World)
    requires Leads(EMPTY, run, w)
    ensures Inv(w)
  {
    RunKeepsInv(EMPTY, run, w, |run| - 1);
  }

  /** With any number of relays interleaving, a row has at most one outstanding produce, and only while it is in sending. */
  lemma OneOutstandingProduce(run: seq<World>, w: World)
    requires Leads(EMPTY, run, w)
    ensures forall p, q :: p in w.inflight && q in w.inflight && w.inflight[p].id == w.inflight[q].id ==> p == q
    ensures forall p :: p in w.inflight ==> w.inflight[p].id in w.rows && w.rows[w.inflight[p].id].status == Sending
  {
    Reachable(run, w);
    forall p, q | p in w.inflight && q in w.inflight && w.inflight[p].id == w.inflight[q].id ensures p == q {
      assert Holds(w, Flight(p), w.inflight[p].id) && Holds(w, Flight(q), w.inflight[p].id);
    }
    forall p | p in w.inflight ensures w.inflight[p].id in w.rows && w.rows[w.inflight[p].id].status == Sending {
      assert Holds(w, Flight(p), w.inflight[p].id);
    }
  }

  lemma {:induction false} ContentForever(w: World, run: seq<World>, w': World, k: nat, id: int)
    requires Leads(w, run, w') && k < |run| && id in w.rows
    ensures id in run[k].rows && Content(run[k].rows[id]) == Content(w.rows[id])
  {
    if k > 0 {
      ContentForever(w, run, w', k - 1, id);
      assert Linked(run, k - 1);
      var e :| Enabled(run[k - 1], e) && Next(run[k - 1], e) == run[k];
      ContentKept(run[k - 1], e, id);
    }
  }

  /** Messages keep their text, and whether one was sent by the transaction is decided when it is stored. */
  lemma {:induction false} MessageForever(w: World, run: seq<World>, w': World, k: nat, m: string)
    requires Leads(w, run, w') && k < |run| && m in w.messages
    ensures m in run[k].messages && run[k].messages[m] == w.messages[m]
    ensures m in run[k].origin <==> m in w.origin
    ensures m in w.origin ==> run[k].origin[m] == w.origin[m]
  {
    if k > 0 {
      MessageForever(w, run, w', k - 1, m);
      assert Linked(run, k - 1);
      var e :| Enabled(run[k - 1], e) && Next(run[k - 1], e) == run[k];
      MessageKept(run[k - 1], e, m);
    }
  }

  lemma MessageKept(w: World, e: Event, m: string)
    requires Enabled(w, e) && m in w.messages
    ensures var w' := Next(w, e);
            && m in w'.messages && w'.messages[m] == w.messages[m] && (m in w'.origin <==> m in w.origin)
            && (m in w.origin ==> w'.origin[m] == w.origin[m])
  {
  }

  /** There is an outbox row for the message. */
  ghost predicate HasRow(w: World, m: string) {
    exists id :: id in w.rows && w.rows[id].payload.msgId == m
  }

  /** There is an entry in Kafka for the message. */
  ghost predicate InKafka(w: World, m: string) {
    exists k :: 0 <= k < |w.kafka| && w.kafka[k].record.payload.msgId == m
  }

  /** At any later time a message has an outbox row if and only if its transaction committed, and then with its text; one
      stored aside never gets to Kafka. */
  lemma RowIffTransaction(run: seq<World>, w: World, later: seq<World>, w': World, m: string)
    requires Leads(EMPTY, run, w) && Leads(w, later, w') && m in w.messages
    ensures HasRow(w', m) <==> m in w.origin
    ensures m in w.origin ==> w.origin[m] in w'.rows && w'.rows[w.origin[m]].payload == w.messages[m]
    ensures m !in w.origin ==> !InKafka(w', m)
  {
    Reachable(run, w);
    RunKeepsInv(w, later, w', |later| - 1);
    MessageForever(w, later, w', |later| - 1, m);
    RowMeansTransaction(w', m);
    KafkaMeansRow(w', m);
    if m in w.origin {
      var id := w.origin[m];
      assert id in w'.rows && w'.rows[id].payload.msgId == m;
    }
  }

  lemma RowMeansTransaction(w: World, m: string)
    requires Paired(w)
    ensures HasRow(w, m) ==> m in w.origin
  {
  }

  lemma KafkaMeansRow(w: World, m: string)
    requires Traced(w)
    ensures InKafka(w, m) ==> HasRow(w, m)
  {
    if InKafka(w, m) {
      var k :| 0 <= k < |w.kafka| && w.kafka[k].record.payload.msgId == m;
      var id := w.kafka[k].id;
      assert id in w.rows && Content(w.rows[id]).payload.msgId == m;
    }
  }

  /** Nothing is lost and nothing is invented: at any later time each message sent by the transaction still has its outbox
      row with its text, each row has its message, a sent row was acknowledged and is in Kafka, and Kafka holds only
      committed rows. */
  lemma NoMessageLostOrInvented(run: seq<World>, w: World, later: seq<World>, w': World)
    requires Leads(EMPTY, run, w) && Leads(w, later, w')
    ensures forall m :: m in w.origin ==>
              m in w.messages && w.origin[m] in w'.rows && w'.rows[w.origin[m]].payload == w.messages[m]
    ensures Paired(w') && Traced(w')
  {
    Reachable(run, w);
    RunKeepsInv(w, later, w', |later| - 1);
    forall m | m in w.origin
      ensures m in w.messages && w.origin[m] in w'.rows && w'.rows[w.origin[m]].payload == w.messages[m]
    {
      RowIffTransaction(run, w, later, w', m);
    }
  }

  /** Taking back a set of rows is safe exactly if nobody alive holds one of them. */
  lemma ReclaimSafeIffUnheld(w: World, stuck: set<int>)
    requires AtMostOneHolder(w)
    ensures AtMostOneHolder(w.(rows := AfterReclaim(w.rows, stuck))) <==> forall h, id :: Holds(w, h, id) ==> id !in stuck
  {
    var w' := w.(rows := AfterReclaim(w.rows, stuck));
    forall h, id ensures Holds(w', h, id) <==> Holds(w, h, id) {}
    if h, id :| Holds(w, h, id) && id in stuck {
      assert Holds(w', h, id) && w'.rows[id].status == Pending;
    }
  }
}
