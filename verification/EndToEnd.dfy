/** Outbox and persister together: what the consumer rebuilds from Kafka is the message table. */
module EndToEnd {
  import Outbox
  import OutboxOrder
  import OutboxTrouble
  import OutboxContent
  import opened Persister

  function KeyOf(msgId: string): Key {
    Key(PrivateMessages, msgId)
  }

  function RowOf(m: Outbox.Message): Row {
    PrivateRow(m.from, m.to, m.content, m.timestamp)
  }

  function EntryOf(d: Outbox.Delivery): Entry {
    Storable(KeyOf(d.record.payload.msgId), RowOf(d.record.payload))
  }

  function LogOf(kafka: seq<Outbox.Delivery>): seq<Entry> {
    seq(|kafka|, i requires 0 <= i < |kafka| => EntryOf(kafka[i]))
  }

  /** The persister subscribes to one topic. */
  function OnTopic(kafka: seq<Outbox.Delivery>, topic: string): seq<Outbox.Delivery> {
    if kafka == [] then []
    else
      var front, d := OnTopic(kafka[..|kafka| - 1], topic), kafka[|kafka| - 1];
      if d.record.topic == topic then front + [d] else front
  }

  lemma {:induction false} AllOnTopic(kafka: seq<Outbox.Delivery>, topic: string)
    requires forall d :: d in kafka ==> d.record.topic == topic
    ensures OnTopic(kafka, topic) == kafka
  {
    if kafka != [] {
      assert kafka[|kafka| - 1] in kafka;
      AllOnTopic(kafka[..|kafka| - 1], topic);
    }
  }

  /** The consumer's table as the messages sent by the transaction would fill it, those and no others. */
  ghost predicate Mirrors(t: Tables, w: Outbox.World) {
    && (forall key :: key in t ==>
          key.table == PrivateMessages && key.msgId in w.origin && key.msgId in w.messages && Copies(t[key], w.messages[key.msgId]))
    && (forall m :: m in w.origin ==> KeyOf(m) in t)
  }

  /** The four columns of the row are those of the message. */
  ghost predicate Copies(r: Row, m: Outbox.Message) {
    r.PrivateRow? && r.from == m.from && r.to == m.to && r.content == m.content && r.timestamp == m.timestamp
  }

  lemma {:induction false} ConsumedComesFromLog(log: seq<Entry>, key: Key)
    requires key in Consume(map[], log)
    ensures Storable(key, Consume(map[], log)[key]) in log
  {
    var n := |log| - 1;
    if key in Consume(map[], log[..n]) {
      ConsumedComesFromLog(log[..n], key);
      assert forall e :: e in log[..n] ==> e in log;
    } else {
      assert log[n] in log;
    }
  }

  /** Every outbox row sent: consuming topic im.messages, with its duplicates, any redeliveries and retries, into an empty
      store gives exactly the private messages that were sent by the transaction. */
  lemma KafkaRebuildsMessages(run: seq<Outbox.World>, es: seq<Outbox.Event>, acts: seq<Action>)
    requires OutboxOrder.IsRun(run, es) && run[0] == Outbox.EMPTY && OutboxContent.FromHandler(es)
    requires var w := run[|es|];
             && (forall id :: id in w.rows ==> w.rows[id].status == Outbox.Sent)
             && var log := LogOf(OnTopic(w.kafka, "im.messages"));
                InOrder(log, acts) && Progress(acts) == |log| && forall key :: !Edited(acts, key)
    ensures Mirrors(After(map[], LogOf(OnTopic(run[|es|].kafka, "im.messages")), acts), run[|es|])
  {
    var w := run[|es|];
    OutboxTrouble.RunLeads(run, es);
    Outbox.Reachable(run, w);
    forall d | d in w.kafka ensures d.record.topic == "im.messages" {
      var k :| 0 <= k < |w.kafka| && w.kafka[k] == d;
      OutboxContent.EntryFromHandler(run, es, k);
    }
    AllOnTopic(w.kafka, "im.messages");
    ConsumedOnce(map[], LogOf(w.kafka), acts);
    LogMirrors(w);
  }

  lemma LogMirrors(w: Outbox.World)
    requires Outbox.Inv(w) && forall id :: id in w.rows ==> w.rows[id].status == Outbox.Sent
    ensures Mirrors(Consume(map[], LogOf(w.kafka)), w)
  {
    var log := LogOf(w.kafka);
    var t := Consume(map[], log);
    forall key | key in t
      ensures key.table == PrivateMessages && key.msgId in w.origin && key.msgId in w.messages && Copies(t[key], w.messages[key.msgId])
    {
      ConsumedComesFromLog(log, key);
      var i :| 0 <= i < |log| && log[i] == Storable(key, t[key]);
      CommittedRow(w, i);
    }
    forall m | m in w.origin ensures KeyOf(m) in t {
      var k := PositionOf(w, m);
      ConsumedIsThere(map[], log, k);
    }
  }

  lemma CommittedRow(w: Outbox.World, i: nat)
    requires Outbox.Inv(w) && i < |w.kafka|
    ensures var p := w.kafka[i].record.payload; p.msgId in w.origin && p.msgId in w.messages && w.messages[p.msgId] == p
  {
    var row := w.rows[w.kafka[i].id];
    assert Outbox.Content(row).payload == row.payload;
    assert w.origin[row.payload.msgId] == w.kafka[i].id;
  }

  lemma PositionOf(w: Outbox.World, m: string) returns (k: nat)
    requires Outbox.Inv(w) && m in w.origin && forall id :: id in w.rows ==> w.rows[id].status == Outbox.Sent
    ensures k < |w.kafka| && LogOf(w.kafka)[k].Storable? && LogOf(w.kafka)[k].key == KeyOf(m)
  {
    var id := w.origin[m];
    assert id in w.rows && w.rows[id].payload == w.messages[m];
    assert Outbox.Stored(w, id);
    k :| 0 <= k < |w.kafka| && w.kafka[k].id == id;
    assert Outbox.Content(w.rows[id]) == w.kafka[k].record;
  }
}
