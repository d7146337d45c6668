/** The service's methods, proved to be runs of the transition system in module Outbox. What the database and Kafka
    decide is given as parameters. */
module OutboxExecution {
  import opened Decimal
  import opened Outbox
  import opened Pigeonhole
  import OutboxOrder
  import opened OutboxContent

  /** Exactly the rows in claimed went to sending. */
  ghost predicate Claimed(rows: map<int, Row>, rows': map<int, Row>, claimed: seq<int>) {
    && rows'.Keys == rows.Keys
    && (forall id :: id in claimed ==> id in rows)
    && forall id :: id in rows ==> rows'[id] == if id in claimed then rows[id].(status := Sending) else rows[id]
  }

  /** Of the first n selected rows, those still pending whose update ran. */
  ghost predicate ClaimedAreRun(rows: map<int, Row>, ids: seq<int>, n: nat, claimed: seq<int>, ran: nat -> bool)
    requires n <= |ids|
  {
    forall i :: 0 <= i < n ==> (ids[i] in claimed <==> ran(i) && ids[i] in PendingIds(rows))
  }

  /** Every selected row is pending and its update runs. */
  ghost predicate AllRun(rows: map<int, Row>, ids: seq<int>, ran: nat -> bool) {
    forall i :: 0 <= i < |ids| ==> ran(i) && ids[i] in PendingIds(rows)
  }

  lemma ClaimNext(rows: map<int, Row>, rows': map<int, Row>, ids: seq<int>, i: nat, claimed: seq<int>, claimed': seq<int>, ran: nat -> bool)
    requires i < |ids| && NoDuplicates(ids) && (forall id :: id in claimed ==> id in ids[..i]) && NoDuplicates(claimed)
    requires Claimed(rows, rows', claimed) && ClaimedAreRun(rows, ids, i, claimed, ran)
    requires claimed' == if ran(i) && ids[i] in PendingIds(rows') then claimed + [ids[i]] else claimed
    ensures ClaimedAreRun(rows, ids, i + 1, claimed', ran) && NoDuplicates(claimed')
    ensures forall id :: id in claimed' ==> id in ids[..i + 1]
    ensures ids[i] in PendingIds(rows') <==> ids[i] in PendingIds(rows)
    ensures AllRun(rows, ids, ran) && claimed == ids[..i] ==> claimed' == ids[..i + 1]
  {
    assert ids[i] !in ids[..i] && ids[..i + 1] == ids[..i] + [ids[i]];
    var id := ids[i];
    assert id !in claimed;
    assert id in rows ==> rows'[id] == rows[id];
    forall j | 0 <= j < i ensures ids[j] in claimed' <==> ids[j] in claimed {
      assert ids[j] != ids[i];
    }
  }

  /** Which of the rows offered to Kafka were refused while the database could be told so. */
  ghost predicate Returned(offered: seq<int>, queued: nat -> bool, dbUp: nat -> bool, id: int) {
    exists i: nat :: i < |offered| && offered[i] == id && !queued(i) && dbUp(i)
  }

  ghost predicate Offered(rows: map<int, Row>, rows': map<int, Row>, offered: seq<int>, queued: nat -> bool, dbUp: nat -> bool) {
    && rows'.Keys == rows.Keys
    && forall id :: id in rows ==>
         rows'[id] == if Returned(offered, queued, dbUp, id) then BackToPending(rows[id]) else rows[id]
  }

  /** The first i claimed rows that were accepted are in flight, and nothing else has been added. */
  ghost predicate Flying(before: map<int, Produce>, now: map<int, Produce>, r: int, claimed: seq<int>, pids: seq<int>, queued: nat -> bool, i: nat)
    requires i <= |claimed| <= |pids|
  {
    && (forall p :: p in now ==> p in before || p in pids[..i])
    && forall j :: 0 <= j < i && queued(j) ==> pids[j] in now && now[pids[j]] == Produce(r, claimed[j], false)
  }

  lemma StillFree(before: map<int, Produce>, now: map<int, Produce>, r: int, claimed: seq<int>, pids: seq<int>, queued: nat -> bool, i: nat)
    requires i < |claimed| <= |pids| && Flying(before, now, r, claimed, pids, queued, i)
    requires NoDuplicates(pids) && forall p :: p in pids ==> p !in before
    ensures pids[i] in pids && pids[i] !in now
  {
    var p := pids[i];
    assert p in pids && p !in pids[..i] && p !in before;
  }

  lemma FlyingNext(before: map<int, Produce>, now: map<int, Produce>, now': map<int, Produce>, r: int, claimed: seq<int>, pids: seq<int>,
                   queued: nat -> bool, i: nat)
    requires i < |claimed| <= |pids| && Flying(before, now, r, claimed, pids, queued, i) && NoDuplicates(pids)
    requires now' == if queued(i) then now[pids[i] := Produce(r, claimed[i], false)] else now
    ensures Flying(before, now', r, claimed, pids, queued, i + 1)
  {
    assert pids[..i + 1] == pids[..i] + [pids[i]];
    forall p | p in now' ensures p in before || p in pids[..i + 1] {
      assert p == pids[i] || p in now;
    }
  }

  function BackToPending(r: Row): Row {
    r.(status := Pending, retries := r.retries + 1)
  }

  /** The rows among the first n offered that Kafka's client accepts. */
  ghost function Accepted(offered: seq<int>, queued: nat -> bool, n: nat): seq<int>
    requires n <= |offered|
  {
    if n == 0 then [] else Accepted(offered, queued, n - 1) + if queued(n - 1) then [offered[n - 1]] else []
  }

  lemma {:induction false} AllAccepted(offered: seq<int>, queued: nat -> bool, n: nat)
    requires n <= |offered| && forall i :: 0 <= i < n ==> queued(i)
    ensures Accepted(offered, queued, n) == offered[..n]
  {
    if n > 0 {
      AllAccepted(offered, queued, n - 1);
    }
  }

  /** A drain in which every update runs and every produce is accepted keeps the order of what was handed over if and only
      if no pending row lay behind. */
  lemma DrainInOrderIff(w: World, ids: seq<int>, ran: nat -> bool, queued: nat -> bool, before: seq<int>)
    requires IsBatch(w.rows, ids) && ids != [] && OutboxOrder.Ascending(before)
    requires AllRun(w.rows, ids, ran) && forall i :: 0 <= i < |ids| ==> queued(i)
    ensures OutboxOrder.Ascending(before + Accepted(ids, queued, |ids|)) <==>
            forall id :: id in PendingIds(w.rows) ==> OutboxOrder.Above(before, id)
  {
    AllAccepted(ids, queued, |ids|);
    assert ids[..|ids|] == ids;
    OutboxOrder.BatchInOrderIff(w, ids, before);
  }

  lemma ReturnedSnoc(offered: seq<int>, queued: nat -> bool, dbUp: nat -> bool, i: nat, id: int)
    requires i < |offered|
    ensures Returned(offered[..i + 1], queued, dbUp, id) <==>
            Returned(offered[..i], queued, dbUp, id) || (offered[i] == id && !queued(i) && dbUp(i))
  {
    if Returned(offered[..i], queued, dbUp, id) {
      var k: nat :| k < i && offered[..i][k] == id && !queued(k) && dbUp(k);
      assert offered[..i + 1][k] == id;
    }
    if offered[i] == id && !queued(i) && dbUp(i) {
      assert offered[..i + 1][i] == id;
    }
  }

  /** What becomes of a selected row: not claimed, claimed, or claimed and handed back. */
  ghost function Drained(before: Row, claimed: bool, returned: bool): Row {
    if !claimed then before else if returned then BackToPending(before) else before.(status := Sending)
  }

  datatype Path = Transaction | Queue | Aside | Nowhere

  class OutboxService {
    var messages: map<string, Message>
    var rows: map<int, Row>
    ghost var origin: map<string, int>
    ghost var relays: map<int, Relay>
    ghost var inflight: map<int, Produce>
    ghost var orphans: map<int, Produce>
    ghost var kafka: seq<Delivery>
    ghost var acked: set<int>
    ghost var produced: seq<int>       // the rows handed to Kafka, in the order of the calls

    ghost function W(): World
      reads this
    {
      World(messages, rows, origin, relays, inflight, orphans, kafka, acked)
    }

    constructor ()
      ensures W() == EMPTY && produced == []
    {
      messages, rows, origin, relays, inflight, orphans, kafka, acked := map[], map[], map[], map[], map[], map[], [], {};
      produced := [];
    }

    /** The transaction of handlePrivateMessage: both inserts and the commit, or nothing. */
    method SendPrivate(msg: Message, id: int, topic: string, key: string, begun: bool, saves: bool, enqueues: bool, commits: bool)
      returns (persisted: bool)
      requires id !in rows
      modifies this`messages, this`rows, this`origin
      ensures persisted <==> begun && saves && enqueues && commits && msg.msgId !in old(messages)
      ensures !persisted ==> W() == old(W())
      ensures persisted ==> Enabled(old(W()), Event.SendPrivate(msg, id, topic, key))
      ensures persisted ==> W() == Next(old(W()), Event.SendPrivate(msg, id, topic, key))
      ensures persisted ==> messages == old(messages)[msg.msgId := msg] && id in rows && rows == old(rows)[id := rows[id]]
      ensures persisted ==> rows[id].topic == topic && rows[id].key == key && rows[id].payload == msg
      ensures persisted ==> rows[id].status == Pending && rows[id].retries == 0
    {
      persisted := false;
      if !begun { return; }
      var txMessages, txRows := messages, rows;
      var savedRow := saves && msg.msgId !in messages;
      if savedRow {
        txMessages := messages[msg.msgId := msg];
      }
      if enqueues {
        txRows := rows[id := Row(topic, key, msg, Pending, 0)];
      }
      if savedRow && enqueues && commits {
        messages, rows, origin := txMessages, txRows, origin[msg.msgId := id];
        persisted := true;
      }
    }

    /** savePrivateMessage on its own connection. */
    method SaveAside(msg: Message, saves: bool) returns (ok: bool)
      modifies this`messages
      ensures ok <==> saves && msg.msgId !in old(messages)
      ensures ok ==> Enabled(old(W()), StoreAside(msg)) && W() == Next(old(W()), StoreAside(msg))
      ensures ok ==> messages == old(messages)[msg.msgId := msg]
      ensures !ok ==> W() == old(W())
    {
      ok := saves && msg.msgId !in messages;
      if ok {
        messages := messages[msg.msgId := msg];
      }
    }

    /** How handlePrivateMessage stores a message: in the transaction with its outbox row, else in the Redis queue, else
        aside; it acknowledges in every case, also when nothing was stored. */
    method HandlePrivateMessage(msg: Message, id: int, begun: bool, saves: bool, enqueues: bool, commits: bool, redis: bool, savesAside: bool)
      returns (path: Path)
      requires id !in rows
      modifies this`messages, this`rows, this`origin
      ensures path == Transaction <==> begun && saves && enqueues && commits && msg.msgId !in old(messages)
      ensures path == Queue <==> path != Transaction && redis
      ensures path == Aside <==> path != Transaction && !redis && savesAside && msg.msgId !in old(messages)
      ensures var e := Event.SendPrivate(msg, id, "im.messages", ConvKey(msg.from, msg.to));
              path == Transaction ==> Enabled(old(W()), e) && W() == Next(old(W()), e)
      ensures path == Transaction ==> id in rows && rows[id].topic == "im.messages" && rows[id].payload == msg
      ensures path == Transaction ==>
        rows[id].key == if msg.from <= msg.to then ToText(msg.from) + ":" + ToText(msg.to) else ToText(msg.to) + ":" + ToText(msg.from)
      ensures path == Aside ==> Enabled(old(W()), StoreAside(msg)) && W() == Next(old(W()), StoreAside(msg))
      ensures path == Transaction || path == Aside ==> messages == old(messages)[msg.msgId := msg]
      ensures path == Queue || path == Nowhere ==> W() == old(W())
    {
      var lo, hi := msg.from, msg.to;
      if hi < lo {
        lo, hi := hi, lo;
      }
      var persisted := SendPrivate(msg, id, "im.messages", ToText(lo) + ":" + ToText(hi), begun, saves, enqueues, commits);
      if persisted { return Transaction; }
      if redis { return Queue; }
      var saved := SaveAside(msg, savesAside);
      path := if saved then Aside else Nowhere;
    }

    method OnDelivery(id: int, ok: bool, dbUp: bool)
      requires id in rows
      modifies this`rows
      ensures rows == AfterDelivery(old(rows), id, ok, dbUp)
      ensures !dbUp ==> rows == old(rows)
      ensures dbUp ==> rows.Keys == old(rows).Keys && forall x :: x in rows && x != id ==> rows[x] == old(rows)[x]
      ensures dbUp && ok ==> rows[id] == old(rows)[id].(status := Sent)
      ensures dbUp && !ok ==> rows[id] == old(rows)[id].(status := Pending, retries := old(rows)[id].retries + 1)
    {
      if !dbUp { return; }
      if ok {
        rows := rows[id := rows[id].(status := Sent)];
      } else {
        rows := rows[id := rows[id].(status := Pending, retries := rows[id].retries + 1)];
      }
    }

    /** start: takes back the rows found in sending, without asking whether another relay is alive. */
    method Start(r: int, stuck: set<int>)
      requires r !in relays
      modifies this`rows, this`relays
      ensures rows.Keys == old(rows).Keys
      ensures forall id :: id in rows ==>
        rows[id] == if id in stuck && old(rows)[id].status == Sending then old(rows)[id].(status := Pending) else old(rows)[id]
      ensures rows == AfterReclaim(old(rows), stuck) && relays == old(relays)[r := Relay([], [])]
      ensures old(relays) == map[] ==> Enabled(old(W()), Boot(r, stuck)) && W() == Next(old(W()), Boot(r, stuck))
    {
      rows := AfterReclaim(rows, stuck);
      relays := relays[r := Relay([], [])];
    }

    /** UPDATE ... SET status='sending' WHERE id=? AND status='pending': claimed only if this call changed the row. */
    method ClaimOne(r: int, id: int, ghost rest: seq<int>, claimed: seq<int>, ran: bool) returns (claimed': seq<int>, ghost e: Event)
      requires r in relays && relays[r] == Relay([id] + rest, claimed)
      modifies this`rows, this`relays
      ensures Enabled(old(W()), e) && W() == Next(old(W()), e)
      ensures relays == old(relays)[r := Relay(rest, claimed')]
      ensures if ran && id in old(rows) && old(rows)[id].status == Pending
              then claimed' == claimed + [id] && rows == old(rows)[id := old(rows)[id].(status := Sending)]
              else claimed' == claimed && rows == old(rows)
    {
      e, claimed' := Claim(r, ran), claimed;
      assert ([id] + rest)[1..] == rest;
      if ran && id in rows && rows[id].status == Pending {
        rows := rows[id := rows[id].(status := Sending)];
        claimed' := claimed + [id];
      }
      relays := relays[r := Relay(rest, claimed')];
    }

    /** kafka_->produce for one claimed row; a full local queue puts the row back at once. */
    method ProduceOne(r: int, id: int, ghost rest: seq<int>, ghost pid: int, queued: bool, dbUp: bool) returns (ghost e: Event)
      requires r in relays && relays[r] == Relay([], [id] + rest) && id in rows
      requires pid !in inflight && pid !in orphans
      modifies this`rows, this`relays, this`inflight, this`produced
      ensures Enabled(old(W()), e) && W() == Next(old(W()), e)
      ensures produced == if queued then old(produced) + [id] else old(produced)
      ensures relays == old(relays)[r := Relay([], rest)]
      ensures inflight == if queued then old(inflight)[pid := Produce(r, id, false)] else old(inflight)
      ensures rows == if queued || !dbUp then old(rows) else old(rows)[id := BackToPending(old(rows)[id])]
    {
      assert ([id] + rest)[1..] == rest;
      if queued {
        e := Enqueue(r, pid);
        produced := produced + [id];
        inflight := inflight[pid := Produce(r, id, false)];
      } else {
        OnDelivery(id, false, dbUp);
        e := Refuse(r, dbUp);
      }
      relays := relays[r := Relay([], rest)];
    }

    /** The same, put on record. */
    method Offer(r: int, id: int, ghost rest: seq<int>, ghost pid: int, queued: bool, dbUp: bool, ghost w0: World, ghost run: seq<World>)
      returns (ghost run': seq<World>)
      requires r in relays && relays[r] == Relay([], [id] + rest) && id in rows
      requires pid !in inflight && pid !in orphans && Leads(w0, run, W())
      modifies this`rows, this`relays, this`inflight, this`produced
      ensures Leads(w0, run', W())
      ensures produced == if queued then old(produced) + [id] else old(produced)
      ensures relays == old(relays)[r := Relay([], rest)]
      ensures inflight == if queued then old(inflight)[pid := Produce(r, id, false)] else old(inflight)
      ensures rows == if queued || !dbUp then old(rows) else old(rows)[id := BackToPending(old(rows)[id])]
    {
      ghost var w := W();
      var e := ProduceOne(r, id, rest, pid, queued, dbUp);
      LeadsSnoc(w0, run, w, e);
      run' := run + [W()];
    }

    /** The claim loop of drainOnce. */
    method ClaimAll(r: int, ids: seq<int>, ran: nat -> bool) returns (claimed: seq<int>, ghost run: seq<World>)
      requires r in relays && relays[r] == Relay(ids, []) && NoDuplicates(ids)
      modifies this`rows, this`relays
      ensures Leads(old(W()), run, W())
      ensures relays == old(relays)[r := Relay([], claimed)]
      ensures NoDuplicates(claimed) && (forall id :: id in claimed ==> id in ids)
      ensures ClaimedAreRun(old(rows), ids, |ids|, claimed, ran)
      ensures AllRun(old(rows), ids, ran) ==> claimed == ids
      ensures Claimed(old(rows), rows, claimed)
    {
      claimed, run := [], [W()];
      assert ids[0..] == ids;
      for i := 0 to |ids|
        invariant Leads(old(W()), run, W())
        invariant relays == old(relays)[r := Relay(ids[i..], claimed)]
        invariant NoDuplicates(claimed) && (forall id :: id in claimed ==> id in ids[..i])
        invariant ClaimedAreRun(old(rows), ids, i, claimed, ran)
        invariant AllRun(old(rows), ids, ran) ==> claimed == ids[..i]
        invariant Claimed(old(rows), rows, claimed)
      {
        ghost var w := W();
        assert ids[i..] == [ids[i]] + ids[i + 1..];
        var c, e := ClaimOne(r, ids[i], ids[i + 1..], claimed, ran(i));
        ClaimNext(old(rows), w.rows, ids, i, claimed, c, ran);
        claimed := c;
        LeadsSnoc(old(W()), run, w, e);
        run := run + [W()];
      }
    }

    /** The produce loop of drainOnce. */
    method ProduceAll(r: int, claimed: seq<int>, ghost pids: seq<int>, queued: nat -> bool, dbUp: nat -> bool) returns (ghost run: seq<World>)
      requires r in relays && relays[r] == Relay([], claimed) && NoDuplicates(claimed)
      requires forall id :: id in claimed ==> id in rows
      requires NoDuplicates(pids) && |pids| >= |claimed| && forall p :: p in pids ==> p !in inflight && p !in orphans
      modifies this`rows, this`relays, this`inflight, this`produced
      ensures Leads(old(W()), run, W())
      ensures relays == old(relays)[r := Relay([], [])]
      ensures Offered(old(rows), rows, claimed, queued, dbUp)
      ensures produced == old(produced) + Accepted(claimed, queued, |claimed|)
      ensures forall i :: 0 <= i < |claimed| && queued(i) ==> pids[i] in inflight && inflight[pids[i]] == Produce(r, claimed[i], false)
    {
      run := [W()];
      assert claimed[0..] == claimed;
      for i := 0 to |claimed|
        invariant Leads(old(W()), run, W())
        invariant relays == old(relays)[r := Relay([], claimed[i..])]
        invariant Flying(old(inflight), inflight, r, claimed, pids, queued, i)
        invariant Offered(old(rows), rows, claimed[..i], queued, dbUp)
        invariant produced == old(produced) + Accepted(claimed, queued, i)
      {
        ghost var w := W();
        var id := claimed[i];
        assert claimed[i..] == [id] + claimed[i + 1..] && id in claimed;
        StillFree(old(inflight), inflight, r, claimed, pids, queued, i);
        run := Offer(r, id, claimed[i + 1..], pids[i], queued(i), dbUp(i), old(W()), run);
        OfferedNext(old(rows), w.rows, rows, claimed, i, queued, dbUp);
        FlyingNext(old(inflight), w.inflight, inflight, r, claimed, pids, queued, i);
      }
      assert claimed[..|claimed|] == claimed;
    }

    /** What the batch query returned becomes this relay's work. */
    ghost method Choose(r: int, ids: seq<int>) returns (run: seq<World>)
      requires r in relays && relays[r] == Relay([], []) && IsBatch(rows, ids) && ids != []
      modifies this`relays
      ensures Leads(old(W()), run, W()) && relays == old(relays)[r := Relay(ids, [])]
    {
      forall i | 0 <= i < |ids| ensures ids[i] in PendingIds(rows) {
        assert ids[i] in ids;
      }
      run := [W()];
      LeadsSnoc(W(), run, W(), Select(r, ids));
      relays := relays[r := Relay(ids, [])];
      run := run + [W()];
    }

    /** drainOnce, given what its query returned: every selected row whose update ran is claimed and produced, a refused
        one goes back to pending, all others are untouched. The accepted ones are
        handed over in the order of the batch. */
    method DrainOnce(r: int, ids: seq<int>, ghost pids: seq<int>, ran: nat -> bool, queued: nat -> bool, dbUp: nat -> bool)
      returns (n: nat, ghost claimed: seq<int>, ghost run: seq<World>)
      requires r in relays && relays[r] == Relay([], []) && IsBatch(rows, ids)
      requires NoDuplicates(pids) && |pids| >= |ids| && forall p :: p in pids ==> p !in inflight && p !in orphans
      modifies this`rows, this`relays, this`inflight, this`produced
      ensures Leads(old(W()), run, W()) && relays == old(relays)
      ensures n == |claimed| && NoDuplicates(claimed) && forall id :: id in claimed ==> id in ids
      ensures forall i :: 0 <= i < |ids| ==> (ids[i] in claimed <==> ran(i))
      ensures rows.Keys == old(rows).Keys
      ensures forall id :: id in rows ==> rows[id] == Drained(old(rows)[id], id in claimed, Returned(claimed, queued, dbUp, id))
      ensures produced == old(produced) + Accepted(claimed, queued, |claimed|)
      ensures AllRun(old(rows), ids, ran) ==> claimed == ids
    {
      n, claimed, run := 0, [], [W()];
      if ids == [] { return; }
      ghost var w0 := W();
      run := Choose(r, ids);
      ghost var w1 := W();
      var c, claims := ClaimAll(r, ids, ran);
      LeadsThrough(w0, run, w1, claims, W());
      run := run + claims[1..];
      ghost var w2 := W();
      AtMostAsMany(c, ids);
      var produces := ProduceAll(r, c, pids, queued, dbUp);
      LeadsThrough(w0, run, w2, produces, W());
      DrainedRows(w0.rows, w2.rows, rows, c, queued, dbUp);
      n, claimed, run := |c|, c, run + produces[1..];
    }
  }

  /** The claim loop and then the produce loop, row by row. */
  lemma DrainedRows(rows: map<int, Row>, rows': map<int, Row>, rows'': map<int, Row>, claimed: seq<int>, queued: nat -> bool, dbUp: nat -> bool)
    requires Claimed(rows, rows', claimed) && Offered(rows', rows'', claimed, queued, dbUp)
    ensures rows''.Keys == rows.Keys
    ensures forall id :: id in rows'' ==> rows''[id] == Drained(rows[id], id in claimed, Returned(claimed, queued, dbUp, id))
  {
  }

  lemma OfferedNext(rows: map<int, Row>, rows': map<int, Row>, rows'': map<int, Row>, claimed: seq<int>, i: nat, queued: nat -> bool, dbUp: nat -> bool)
    requires i < |claimed| && NoDuplicates(claimed) && claimed[i] in rows' && Offered(rows, rows', claimed[..i], queued, dbUp)
    requires rows'' == if queued(i) || !dbUp(i) then rows' else rows'[claimed[i] := BackToPending(rows'[claimed[i]])]
    ensures Offered(rows, rows'', claimed[..i + 1], queued, dbUp)
  {
    forall id | id in rows
      ensures rows''[id] == if Returned(claimed[..i + 1], queued, dbUp, id) then BackToPending(rows[id]) else rows[id]
    {
      ReturnedSnoc(claimed, queued, dbUp, i, id);
      if id == claimed[i] {
        assert !Returned(claimed[..i], queued, dbUp, id);
      }
    }
  }

  /** Distinct elements of a sequence are at most as many as the sequence is long. */
  lemma {:induction false} AtMostAsMany(some: seq<int>, all: seq<int>)
    requires NoDuplicates(some) && forall x :: x in some ==> x in all
    ensures |some| <= |all|
  {
    if some != [] {
      var x := some[0];
      assert x in all;
      var k :| 0 <= k < |all| && all[k] == x;
      var rest := all[..k] + all[k + 1..];
      forall y | y in some[1..] ensures y in rest {
        assert y in some;
        var j :| 0 <= j < |all| && all[j] == y;
        assert j != k;
        assert rest[if j < k then j else j - 1] == y;
      }
      AtMostAsMany(some[1..], rest);
    }
  }
}
