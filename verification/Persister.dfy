/** The Kafka consumer of src/persister/main.cpp: idempotent inserts, retries, redeliveries. */
module Persister {

  datatype Table = PrivateMessages | GroupMessages
  datatype Key = Key(table: Table, msgId: string)
  datatype Row =
    | PrivateRow(from: int, to: int, content: string, timestamp: int)
    | GroupRow(groupId: int, from: int, content: string, timestamp: int, mentions: string)
  type Tables = map<Key, Row>

  /** A log value after parsing: unusable values are skipped, the others name a row. */
  datatype Entry = BadJson | UnknownType | Storable(key: Key, row: Row)

  /** INSERT ... ON DUPLICATE KEY UPDATE id=id. */
  function InsertIfAbsent(t: Tables, e: Entry): Tables {
    if e.Storable? && e.key !in t then t[e.key := e.row] else t
  }

  /** Consuming each entry once. */
  ghost function Consume(t: Tables, log: seq<Entry>): Tables {
    if log == [] then t else InsertIfAbsent(Consume(t, log[..|log| - 1]), log[|log| - 1])
  }

  class Consumer {
    var tables: Tables
    var seenPrivate: nat
    var seenGroup: nat
    var errors: nat

    constructor (tables: Tables)
      ensures this.tables == tables && seenPrivate == seenGroup == errors == 0
    {
      this.tables, seenPrivate, seenGroup, errors := tables, 0, 0, 0;
    }

    /** The callback: true commits the offset, false has the value delivered again. */
    method OnMessage(e: Entry, persists: bool) returns (commit: bool)
      modifies this
      ensures commit <==> persists || !e.Storable?
      ensures tables == if commit then InsertIfAbsent(old(tables), e) else old(tables)
      ensures tables == if persists && e.Storable? && e.key !in old(tables) then old(tables)[e.key := e.row] else old(tables)
      ensures errors == old(errors) + if e.BadJson? || !commit then 1 else 0
      ensures seenPrivate == old(seenPrivate) + if commit && e.Storable? && e.key.table.PrivateMessages? then 1 else 0
      ensures seenGroup == old(seenGroup) + if commit && e.Storable? && e.key.table.GroupMessages? then 1 else 0
    {
      match e
      case BadJson =>
        errors := errors + 1;
        commit := true;
      case UnknownType =>
        commit := true;
      case Storable(key, row) =>
        if persists {
          if key !in tables { tables := tables[key := row]; }
          if key.table.PrivateMessages? { seenPrivate := seenPrivate + 1; } else { seenGroup := seenGroup + 1; }
        } else {
          errors := errors + 1;
        }
        commit := persists;
    }
  }

  // ----- any sequence of deliveries -----

  /** Entry index is handed to the callback, which commits or not; or another service changes a stored row meanwhile. */
  datatype Action = Deliver(index: nat, commit: bool) | Edit(key: Key, row: Row)

  ghost function After(t: Tables, log: seq<Entry>, acts: seq<Action>): Tables {
    if acts == [] then t
    else
      var front, a := After(t, log, acts[..|acts| - 1]), acts[|acts| - 1];
      match a
      case Deliver(i, commit) => if commit && i < |log| then InsertIfAbsent(front, log[i]) else front
      case Edit(key, row) => if key in front then front[key := row] else front
  }

  /** How far the log has been committed: the entries below are all stored or skipped. */
  ghost function Progress(acts: seq<Action>): nat {
    if acts == [] then 0
    else
      var p, a := Progress(acts[..|acts| - 1]), acts[|acts| - 1];
      if a.Deliver? && a.commit && a.index == p then p + 1 else p
  }

  /** Entries are delivered in order at first, and at any later time again. */
  ghost predicate InOrder(log: seq<Entry>, acts: seq<Action>) {
    forall k :: 0 <= k < |acts| && acts[k].Deliver? ==> acts[k].index < |log| && acts[k].index <= Progress(acts[..k])
  }

  ghost predicate Edited(acts: seq<Action>, key: Key) {
    exists k :: 0 <= k < |acts| && acts[k].Edit? && acts[k].key == key
  }

  lemma {:induction false} ConsumedIsThere(t: Tables, log: seq<Entry>, i: nat)
    requires i < |log| && log[i].Storable?
    ensures log[i].key in Consume(t, log)
  {
    if i < |log| - 1 {
      ConsumedIsThere(t, log[..|log| - 1], i);
    }
  }

  lemma EditedSnoc(acts: seq<Action>, a: Action, key: Key)
    ensures Edited(acts + [a], key) <==> Edited(acts, key) || (a.Edit? && a.key == key)
  {
    if Edited(acts, key) {
      var k :| 0 <= k < |acts| && acts[k].Edit? && acts[k].key == key;
      assert (acts + [a])[k] == acts[k];
    }
    if a.Edit? && a.key == key {
      assert (acts + [a])[|acts|] == a;
    }
  }

  /** Any redeliveries and retries leave the table that consuming each entry once leaves; edited rows stay edited. */
  lemma {:induction false} RedeliveryChangesNothing(t: Tables, log: seq<Entry>, acts: seq<Action>)
    requires InOrder(log, acts)
    ensures Progress(acts) <= |log|
    ensures After(t, log, acts).Keys == Consume(t, log[..Progress(acts)]).Keys
    ensures forall key :: key in After(t, log, acts) && !Edited(acts, key) ==>
              After(t, log, acts)[key] == Consume(t, log[..Progress(acts)])[key]
    decreases |acts|
  {
    if acts == [] {
      assert log[..0] == [];
    } else {
      var front, a := acts[..|acts| - 1], acts[|acts| - 1];
      assert acts == front + [a];
      forall k | 0 <= k < |front| && front[k].Deliver? ensures front[k].index < |log| && front[k].index <= Progress(front[..k]) {
        assert front[k] == acts[k] && front[..k] == acts[..k];
      }
      RedeliveryChangesNothing(t, log, front);
      forall key ensures Edited(acts, key) <==> Edited(front, key) || (a.Edit? && a.key == key) { EditedSnoc(front, a, key); }
      if a.Deliver? && a.commit {
        var p := Progress(front);
        assert acts[|acts| - 1].index <= Progress(acts[..|acts| - 1]);
        if a.index == p {
          assert log[..p + 1][..p] == log[..p];
        } else if log[a.index].Storable? {
          ConsumedIsThere(t, log[..p], a.index);
        }
      }
    }
  }

  /** The log is through, nobody edited: exactly the result of consuming each entry once. */
  lemma ConsumedOnce(t: Tables, log: seq<Entry>, acts: seq<Action>)
    requires InOrder(log, acts) && Progress(acts) == |log| && forall key :: !Edited(acts, key)
    ensures After(t, log, acts) == Consume(t, log)
  {
    RedeliveryChangesNothing(t, log, acts);
    assert log[..|log|] == log;
  }

  /** No delivery ever changes a row that is already stored. */
  lemma {:induction false} StoredIsNeverOverwritten(t: Tables, log: seq<Entry>, acts: seq<Action>, key: Key)
    requires key in t && forall k :: 0 <= k < |acts| ==> acts[k].Deliver?
    ensures key in After(t, log, acts) && After(t, log, acts)[key] == t[key]
    decreases |acts|
  {
    if acts != [] {
      StoredIsNeverOverwritten(t, log, acts[..|acts| - 1], key);
    }
  }
}
