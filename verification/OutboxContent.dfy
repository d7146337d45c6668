/** What the outbox carries: the topic, the key and the message of the transaction that put it there. */
module OutboxContent {
  import opened Decimal
  import opened Outbox
  import opened OutboxOrder

  // ----- the key of a conversation -----

  function Least(a: int, b: int): int {
    if a <= b then a else b
  }

  function Greatest(a: int, b: int): int {
    if a <= b then b else a
  }

  /** Both users, the smaller id first. */
  function ConvKey(a: int, b: int): string {
    ToText(Least(a, b)) + ":" + ToText(Greatest(a, b))
  }

  lemma SplitAtColon(a: string, x: string, b: string, y: string)
    requires ':' !in a && ':' !in b && a + ":" + x == b + ":" + y
    ensures a == b && x == y
  {
    var s, t := a + ":" + x, b + ":" + y;
    if |a| < |b| {
      LongerHasColon(a, x, b, y);
    } else if |b| < |a| {
      LongerHasColon(b, y, a, x);
    }
    assert s[..|a|] == a && t[..|b|] == b && s[|a| + 1..] == x && t[|b| + 1..] == y;
  }

  lemma LongerHasColon(a: string, x: string, b: string, y: string)
    requires a + ":" + x == b + ":" + y && |a| < |b|
    ensures ':' in b
  {
    assert (a + ":" + x)[|a|] == (b + ":" + y)[|a|] == b[|a|];
  }

  /** Two messages have the same key if and only if they are between the same two users, in whichever direction. */
  lemma SameKeyIffSamePair(a: int, b: int, c: int, d: int)
    ensures ConvKey(a, b) == ConvKey(c, d) <==> (a == c && b == d) || (a == d && b == c)
  {
    if ConvKey(a, b) == ConvKey(c, d) {
      TextHasNoColon(Least(a, b));
      TextHasNoColon(Least(c, d));
      SplitAtColon(ToText(Least(a, b)), ToText(Greatest(a, b)), ToText(Least(c, d)), ToText(Greatest(c, d)));
      TextTells(Least(a, b), Least(c, d));
      TextTells(Greatest(a, b), Greatest(c, d));
    }
  }

  // ----- what a run carries -----

  /** The row says what the transaction of event i put into it. */
  ghost predicate SentBy(es: seq<Event>, i: nat, id: int, record: Record) {
    && i < |es| && es[i].SendPrivate? && es[i].id == id
    && record.topic == es[i].topic && record.key == es[i].key && record.payload == es[i].msg
  }

  ghost predicate Told(es: seq<Event>, id: int, record: Record) {
    exists i: nat :: SentBy(es, i, id, record)
  }

  ghost predicate RowsTold(w: World, es: seq<Event>) {
    forall id :: id in w.rows ==> Told(es, id, Content(w.rows[id]))
  }

  lemma ToldStays(es: seq<Event>, e: Event, id: int, record: Record)
    requires Told(es, id, record)
    ensures Told(es + [e], id, record)
  {
    var i: nat :| SentBy(es, i, id, record);
    assert (es + [e])[i] == es[i];
    assert SentBy(es + [e], i, id, record);
  }

  lemma StepTold(w: World, es: seq<Event>, e: Event)
    requires RowsTold(w, es) && Outbox.Enabled(w, e)
    ensures RowsTold(Next(w, e), es + [e])
  {
    var w' := Next(w, e);
    forall id | id in w'.rows ensures Told(es + [e], id, Content(w'.rows[id])) {
      if id in w.rows {
        ContentKept(w, e, id);
        ToldStays(es, e, id, Content(w.rows[id]));
      } else {
        NewRow(w, e, id);
        assert (es + [e])[|es|] == e;
        assert SentBy(es + [e], |es|, id, Content(w'.rows[id]));
      }
    }
  }

  lemma NewRow(w: World, e: Event, id: int)
    requires Outbox.Enabled(w, e) && id !in w.rows && id in Next(w, e).rows
    ensures e.SendPrivate? && e.id == id
    ensures var r := Next(w, e).rows[id];
            r.topic == e.topic && r.key == e.key && r.payload == e.msg && r.status == Pending && r.retries == 0
  {
  }

  lemma {:induction false} RunTold(run: seq<World>, es: seq<Event>, k: nat)
    requires IsRun(run, es) && run[0] == EMPTY && k <= |es|
    ensures RowsTold(run[k], es[..k])
  {
    if k > 0 {
      RunTold(run, es, k - 1);
      assert OutboxOrder.Linked(run, es, k - 1);
      StepTold(run[k - 1], es[..k - 1], es[k - 1]);
      assert es[..k] == es[..k - 1] + [es[k - 1]];
    }
  }

  /** Every entry in Kafka, and every outbox row, has topic, key and message of one transaction of the run. */
  lemma KafkaIsAsSent(run: seq<World>, es: seq<Event>, k: nat)
    requires IsRun(run, es) && run[0] == EMPTY && k < |run[|es|].kafka|
    ensures var d := run[|es|].kafka[k];
            exists i: nat :: i < |es| && es[i] == Event.SendPrivate(d.record.payload, d.id, d.record.topic, d.record.key)
  {
    var w := run[|es|];
    var d := w.kafka[k];
    RunInv(run, es, |es|);
    RunTold(run, es, |es|);
    assert es[..|es|] == es;
    assert d.id in w.rows && Content(w.rows[d.id]) == d.record;
    var i: nat :| SentBy(es, i, d.id, d.record);
    assert es[i] == Event.SendPrivate(d.record.payload, d.id, d.record.topic, d.record.key);
  }

  lemma {:induction false} RunInv(run: seq<World>, es: seq<Event>, k: nat)
    requires IsRun(run, es) && run[0] == EMPTY && k <= |es|
    ensures Inv(run[k])
  {
    if k > 0 {
      RunInv(run, es, k - 1);
      assert OutboxOrder.Linked(run, es, k - 1);
      NextKeepsInv(run[k - 1], es[k - 1]);
    }
  }

  /** And each transaction's row is there ever after, saying so. */
  lemma {:induction false} RowIsAsSent(run: seq<World>, es: seq<Event>, i: nat, k: nat)
    requires IsRun(run, es) && i < k <= |es| && es[i].SendPrivate?
    ensures es[i].id in run[k].rows
    ensures var r := run[k].rows[es[i].id]; r.topic == es[i].topic && r.key == es[i].key && r.payload == es[i].msg
  {
    assert OutboxOrder.Linked(run, es, k - 1);
    if k - 1 > i {
      RowIsAsSent(run, es, i, k - 1);
      ContentKept(run[k - 1], es[k - 1], es[i].id);
    }
  }

  /** Transactions are those of handlePrivateMessage: topic im.messages, and the key of the conversation. */
  ghost predicate FromHandler(es: seq<Event>) {
    forall i :: 0 <= i < |es| && es[i].SendPrivate? ==>
      es[i].topic == "im.messages" && es[i].key == ConvKey(es[i].msg.from, es[i].msg.to)
  }

  lemma EntryFromHandler(run: seq<World>, es: seq<Event>, k: nat)
    requires IsRun(run, es) && run[0] == EMPTY && FromHandler(es) && k < |run[|es|].kafka|
    ensures var x := run[|es|].kafka[k].record; x.topic == "im.messages" && x.key == ConvKey(x.payload.from, x.payload.to)
  {
    KafkaIsAsSent(run, es, k);
  }

  /** All entries are on the one topic, and two have the same key, and so the same partition and order, if and only if they
      are between the same two users. */
  lemma ConversationsKeepTogether(run: seq<World>, es: seq<Event>, j: nat, k: nat)
    requires IsRun(run, es) && run[0] == EMPTY && FromHandler(es) && j < |run[|es|].kafka| && k < |run[|es|].kafka|
    ensures var x, y := run[|es|].kafka[j].record, run[|es|].kafka[k].record;
            && x.topic == y.topic == "im.messages"
            && (x.key == y.key <==> {x.payload.from, x.payload.to} == {y.payload.from, y.payload.to})
  {
    EntryFromHandler(run, es, j);
    EntryFromHandler(run, es, k);
    var x, y := run[|es|].kafka[j].record.payload, run[|es|].kafka[k].record.payload;
    SameKeyIffSamePair(x.from, x.to, y.from, y.to);
    SamePair(x.from, x.to, y.from, y.to);
  }

  lemma SamePair(a: int, b: int, c: int, d: int)
    ensures {a, b} == {c, d} <==> (a == c && b == d) || (a == d && b == c)
  {
    if {a, b} == {c, d} {
      assert a in {c, d} && b in {c, d} && c in {a, b} && d in {a, b};
    }
  }

  // ----- retries -----

  /** The event is news, which reaches the database, that handing over this row failed. */
  ghost predicate FailsFor(w: World, e: Event, id: int)
    requires Outbox.Enabled(w, e)
  {
    match e
    case Refuse(r, dbUp) => dbUp && w.relays[r].claimed[0] == id
    case Callback(pid, ok, dbUp) => dbUp && !ok && w.inflight[pid].id == id
    case _ => false
  }

  ghost function Failures(run: seq<World>, es: seq<Event>, id: int, k: nat): nat
    requires IsRun(run, es) && k <= |es|
  {
    if k == 0 then 0
    else
      assert OutboxOrder.Linked(run, es, k - 1);
      Failures(run, es, id, k - 1) + if FailsFor(run[k - 1], es[k - 1], id) then 1 else 0
  }

  /** retry_count is how often handing over the row failed. */
  lemma {:induction false} RetriesCountFailures(run: seq<World>, es: seq<Event>, id: int, k: nat)
    requires IsRun(run, es) && run[0] == EMPTY && k <= |es|
    ensures Failures(run, es, id, k) == if id in run[k].rows then run[k].rows[id].retries else 0
  {
    if k > 0 {
      RetriesCountFailures(run, es, id, k - 1);
      assert OutboxOrder.Linked(run, es, k - 1);
      RunInv(run, es, k - 1);
      RetryStep(run[k - 1], es[k - 1], id);
    }
  }

  lemma RetryStep(w: World, e: Event, id: int)
    requires Inv(w) && Outbox.Enabled(w, e)
    ensures var w' := Next(w, e);
            && (id in w.rows ==> id in w'.rows && w'.rows[id].retries == w.rows[id].retries + if FailsFor(w, e, id) then 1 else 0)
            && (id !in w.rows ==> !FailsFor(w, e, id) && (id in w'.rows ==> w'.rows[id].retries == 0))
  {
    if e.Refuse? {
      assert Holds(w, Batch(e.relay), w.relays[e.relay].claimed[0]);
    } else if e.Callback? {
      assert Holds(w, Flight(e.pid), w.inflight[e.pid].id);
    }
  }

  // ----- the batch -----

  lemma {:induction false} AscendingCount(ids: seq<int>)
    requires Ascending(ids)
    ensures |set id | id in ids| == |ids|
  {
    if ids != [] {
      var n := |ids| - 1;
      var front, all := set id | id in ids[..n], set id | id in ids;
      AscendingCount(ids[..n]);
      assert ids == ids[..n] + [ids[n]];
      assert all == front + {ids[n]};
      forall x | x in front ensures x < ids[n] {
        var i :| 0 <= i < n && ids[..n][i] == x;
        assert ids[i] < ids[n];
      }
    }
  }

  /** The query returns pending rows in the order of their ids: all of them, or if there are more than 100, the first 100. */
  lemma BatchIsFirstHundred(rows: map<int, Row>, ids: seq<int>)
    requires IsBatch(rows, ids)
    ensures Ascending(ids) && |ids| == if |PendingIds(rows)| <= 100 then |PendingIds(rows)| else 100
    ensures forall id :: id in PendingIds(rows) && id !in ids ==> forall x :: x in ids ==> x < id
  {
    AscendingCount(ids);
    var all := set id | id in ids;
    assert all <= PendingIds(rows);
    if id :| id in PendingIds(rows) && id !in ids {
      Smaller(all, PendingIds(rows), id);
    } else {
      forall id | id in PendingIds(rows) ensures id in all {
      }
      assert all == PendingIds(rows);
    }
  }

  lemma Smaller(a: set<int>, b: set<int>, x: int)
    requires a <= b && x in b && x !in a
    ensures |a| < |b|
  {
    assert b == a + (b - a) && x in b - a;
    assert |b| == |a| + |b - a|;
  }
}
