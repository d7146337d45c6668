/** Editing and recalling of src/server/MessageService.h, with the audit table message_edits. */
module MessageHistory {
  import opened Options

  const EDIT_WINDOW := 15 * 60 * 1000
  const RECALL_WINDOW := 120000

  datatype Kind = Private | Group
  datatype Key = Key(kind: Kind, id: string)

  /** A row of private_messages or group_messages; None is SQL NULL. */
  datatype Row = Row(author: int, timestamp: int, recalled: bool, content: string, editedAt: Option<int>, original: Option<string>)

  datatype Edit = Edit(key: Key, editor: int, oldBody: string, newBody: string, at: int)

  datatype Db = Db(rows: map<Key, Row>, edits: seq<Edit>)

  function TextOf(s: Option<string>): string {
    match s case None => "" case Some(t) => t
  }

  predicate Editable(r: Row, editor: int, now: int) {
    r.author == editor && !r.recalled && r.timestamp >= now - EDIT_WINDOW
  }

  /** What the UPDATE writes: original_body is filled in only while it reads as empty. */
  function EditRow(r: Row, body: string, now: int): Row {
    var r' := r.(content := body, editedAt := Some(now));
    if TextOf(r.original) == "" then r'.(original := Some(r.content)) else r'
  }

  /** The edit transaction; None when it is refused. A row that would not change counts as not affected. */
  function Edited(db: Db, key: Key, editor: int, body: string, now: int): Option<Db> {
    if key !in db.rows || !Editable(db.rows[key], editor, now) then None
    else
      var r := db.rows[key];
      var r' := EditRow(r, body, now);
      if r' == r then None
      else Some(Db(db.rows[key := r'], db.edits + [Edit(key, editor, r.content, body, now)]))
  }

  predicate Recallable(db: Db, key: Key, author: int, now: int) {
    && key in db.rows && db.rows[key].author == author
    && db.rows[key].timestamp > now - RECALL_WINDOW && !db.rows[key].recalled
  }

  function Recalled(db: Db, key: Key): Db
    requires key in db.rows
  {
    db.(rows := db.rows[key := db.rows[key].(recalled := true)])
  }

  // ----- runs of serial transactions -----

  datatype Event =
    | Send(key: Key, author: int, content: string, timestamp: int)
    | EditBy(key: Key, editor: int, body: string, now: int)
    | RecallBy(key: Key, author: int, now: int)

  function Next(db: Db, e: Event): Db {
    match e
    case Send(key, author, content, ts) =>
      if key in db.rows then db else db.(rows := db.rows[key := Row(author, ts, false, content, None, None)])
    case EditBy(key, editor, body, now) =>
      (match Edited(db, key, editor, body, now) case None => db case Some(db') => db')
    case RecallBy(key, author, now) =>
      if Recallable(db, key, author, now) then Recalled(db, key) else db
  }

  function After(db: Db, es: seq<Event>): Db {
    if es == [] then db else Next(After(db, es[..|es| - 1]), es[|es| - 1])
  }

  /** The content of the first Send for the key. */
  function FirstContent(es: seq<Event>, key: Key): Option<string> {
    if es == [] then None
    else if es[0].Send? && es[0].key == key then Some(es[0].content)
    else FirstContent(es[1..], key)
  }

  // ----- the audit trail of one message -----

  function Trail(edits: seq<Edit>, key: Key): seq<Edit> {
    if edits == [] then []
    else
      var t := Trail(edits[..|edits| - 1], key);
      var x := edits[|edits| - 1];
      if x.key == key then t + [x] else t
  }

  /** Each entry starts where the one before it ended, from the first content to the last. */
  ghost predicate Chain(t: seq<Edit>, first: string, last: string) {
    && (t == [] ==> first == last)
    && (t != [] ==> t[0].oldBody == first && t[|t| - 1].newBody == last)
    && forall i :: 0 < i < |t| ==> t[i].oldBody == t[i - 1].newBody
  }

  /** The first body of the trail that is not empty, if any was ever replaced. */
  function FirstNonEmpty(t: seq<Edit>): string {
    if t == [] then ""
    else
      var f := FirstNonEmpty(t[..|t| - 1]);
      if f != "" then f else t[|t| - 1].oldBody
  }

  /** What the two tables say about one message, given how it started. */
  ghost predicate HistoryOk(db: Db, key: Key, first: string) {
    && key in db.rows
    && var r := db.rows[key];
       var t := Trail(db.edits, key);
       && Chain(t, first, r.content)
       && TextOf(r.original) == FirstNonEmpty(t)
       && (t == [] <==> r.original == None)
       && r.editedAt == (if t == [] then None else Some(t[|t| - 1].at))
       && forall i :: 0 <= i < |t| ==> t[i].editor == r.author && t[i].at <= r.timestamp + EDIT_WINDOW
  }

  ghost predicate Untold(db: Db, key: Key) {
    key !in db.rows && Trail(db.edits, key) == []
  }

  lemma TrailSnoc(edits: seq<Edit>, x: Edit, key: Key)
    ensures Trail(edits + [x], key) == if x.key == key then Trail(edits, key) + [x] else Trail(edits, key)
  {
    assert (edits + [x])[..|edits|] == edits;
  }

  lemma FirstNonEmptySnoc(t: seq<Edit>, x: Edit)
    ensures FirstNonEmpty(t + [x]) == if FirstNonEmpty(t) != "" then FirstNonEmpty(t) else x.oldBody
  {
    assert (t + [x])[..|t|] == t;
  }

  lemma NextKeepsHistory(db: Db, key: Key, first: string, e: Event)
    requires HistoryOk(db, key, first)
    ensures HistoryOk(Next(db, e), key, first)
  {
    if e.EditBy? && Edited(db, e.key, e.editor, e.body, e.now).Some? {
      var x := Edit(e.key, e.editor, db.rows[e.key].content, e.body, e.now);
      TrailSnoc(db.edits, x, key);
      if e.key == key {
        EditKeepsHistory(db, key, first, e.body, e.now, x);
      }
    }
  }

  lemma EditKeepsHistory(db: Db, key: Key, first: string, body: string, now: int, x: Edit)
    requires HistoryOk(db, key, first) && Editable(db.rows[key], x.editor, now)
    requires x == Edit(key, x.editor, db.rows[key].content, body, now)
    ensures HistoryOk(Db(db.rows[key := EditRow(db.rows[key], body, now)], db.edits + [x]), key, first)
  {
    var t := Trail(db.edits, key);
    TrailSnoc(db.edits, x, key);
    FirstNonEmptySnoc(t, x);
    assert Chain(t + [x], first, body);
  }

  lemma NextStartsHistory(db: Db, key: Key, e: Event)
    requires Untold(db, key)
    ensures if e.Send? && e.key == key then HistoryOk(Next(db, e), key, e.content) else Untold(Next(db, e), key)
  {
    if e.EditBy? && Edited(db, e.key, e.editor, e.body, e.now).Some? {
      TrailSnoc(db.edits, Edit(e.key, e.editor, db.rows[e.key].content, e.body, e.now), key);
    }
  }

  lemma {:induction false} FirstContentSnoc(es: seq<Event>, e: Event, key: Key)
    ensures FirstContent(es + [e], key) ==
            if FirstContent(es, key).Some? then FirstContent(es, key)
            else if e.Send? && e.key == key then Some(e.content) else None
  {
    if es != [] {
      assert (es + [e])[1..] == es[1..] + [e];
      FirstContentSnoc(es[1..], e, key);
    } else {
      assert (es + [e])[1..] == [];
    }
  }

  /** After every run the audit rows lead from the first content of each message to its present one. */
  lemma {:induction false} HistoryIsAChain(es: seq<Event>, key: Key)
    ensures var db := After(Db(map[], []), es);
            match FirstContent(es, key)
            case None => Untold(db, key)
            case Some(first) => HistoryOk(db, key, first)
  {
    if es != [] {
      var before, e := es[..|es| - 1], es[|es| - 1];
      assert es == before + [e];
      HistoryIsAChain(before, key);
      FirstContentSnoc(before, e, key);
      var db := After(Db(map[], []), before);
      match FirstContent(before, key)
      case None => NextStartsHistory(db, key, e);
      case Some(first) => NextKeepsHistory(db, key, first, e);
    }
  }

  ghost predicate OnlyEmptyReplaced(t: seq<Edit>) {
    forall i :: 0 <= i < |t| ==> t[i].oldBody == ""
  }

  lemma {:induction false} FirstNonEmptyOf(t: seq<Edit>)
    ensures FirstNonEmpty(t) == "" <==> OnlyEmptyReplaced(t)
    ensures t != [] && t[0].oldBody != "" ==> FirstNonEmpty(t) == t[0].oldBody
  {
    if t != [] {
      var u := t[..|t| - 1];
      FirstNonEmptyOf(u);
      assert t == u + [t[|t| - 1]];
      assert OnlyEmptyReplaced(t) <==> OnlyEmptyReplaced(u) && t[|t| - 1].oldBody == "";
    }
  }

  /** original_body is the first content of an edited message, unless that was empty and a later version was replaced too. */
  lemma OriginalIsFirstContent(es: seq<Event>, key: Key)
    requires FirstContent(es, key).Some?
    ensures var db := After(Db(map[], []), es);
            var first := FirstContent(es, key).value;
            var t := Trail(db.edits, key);
            && key in db.rows
            && (t == [] <==> db.rows[key].original == None)
            && (t != [] ==> (db.rows[key].original == Some(first) <==> first != "" || OnlyEmptyReplaced(t)))
  {
    HistoryIsAChain(es, key);
    FirstNonEmptyOf(Trail(After(Db(map[], []), es).edits, key));
  }

  /** Sent empty, edited twice: the second version passes for the original. */
  lemma EmptyFirstContentIsLost(id: string)
    ensures var key := Key(Private, id);
            var es := [Send(key, 1, "", 0), EditBy(key, 1, "a", 1), EditBy(key, 1, "b", 2)];
            var db := After(Db(map[], []), es);
            key in db.rows && db.rows[key].original == Some("a")
  {
    var key := Key(Private, id);
    var e0, e1, e2 := Send(key, 1, "", 0), EditBy(key, 1, "a", 1), EditBy(key, 1, "b", 2);
    assert [e0, e1, e2][..2] == [e0, e1] && [e0, e1][..1] == [e0] && [e0][..0] == [];
    assert After(Db(map[], []), [e0]) == Next(After(Db(map[], []), []), e0);
    assert After(Db(map[], []), [e0, e1]) == Next(After(Db(map[], []), [e0]), e1);
  }

  /** Once recalled, a message keeps its row and its trail whatever comes after. */
  lemma {:induction false} RecallFreezes(db: Db, key: Key, es: seq<Event>)
    requires key in db.rows && db.rows[key].recalled
    ensures var db' := After(db, es);
            && key in db'.rows && db'.rows[key] == db.rows[key]
            && Trail(db'.edits, key) == Trail(db.edits, key)
  {
    if es != [] {
      var before, e := es[..|es| - 1], es[|es| - 1];
      RecallFreezes(db, key, before);
      var mid := After(db, before);
      if e.EditBy? && Edited(mid, e.key, e.editor, e.body, e.now).Some? {
        TrailSnoc(mid.edits, Edit(e.key, e.editor, mid.rows[e.key].content, e.body, e.now), key);
      }
    }
  }

  // ----- which attempts go through, in terms of the events alone -----

  /** Event i is the first to send the message. */
  ghost predicate FirstSend(es: seq<Event>, key: Key, i: nat) {
    && i < |es| && es[i].Send? && es[i].key == key
    && forall j: nat :: j < i && es[j].Send? ==> es[j].key != key
  }

  /** Event k recalls the message that event i sent: by its author, less than two minutes later. */
  ghost predicate RecallCounts(es: seq<Event>, key: Key, i: nat, k: nat) {
    && FirstSend(es, key, i) && i < k < |es|
    && es[k].RecallBy? && es[k].key == key && es[k].author == es[i].author
    && es[k].now - es[i].timestamp < 120000
  }

  ghost predicate Withdrawn(es: seq<Event>, key: Key) {
    exists i, k :: RecallCounts(es, key, i, k)
  }

  lemma FirstSendSnoc(es: seq<Event>, e: Event, key: Key, i: nat)
    ensures i < |es| ==> (FirstSend(es + [e], key, i) <==> FirstSend(es, key, i))
    ensures i == |es| ==> (FirstSend(es + [e], key, i) <==> e.Send? && e.key == key && forall j: nat :: !FirstSend(es, key, j))
  {
    var all := es + [e];
    assert forall j: nat :: j < |es| ==> all[j] == es[j];
    if i == |es| {
      assert all[i] == e;
      if FirstSend(all, key, i) {
        forall j: nat ensures !FirstSend(es, key, j) {
          assert j < |es| ==> all[j] == es[j];
        }
      } else if e.Send? && e.key == key {
        var j: nat :| j < i && all[j].Send? && all[j].key == key;
        SomeSendIsFirst(es, key, j);
      }
    }
  }

  lemma {:induction false} SomeSendIsFirst(es: seq<Event>, key: Key, j: nat)
    requires j < |es| && es[j].Send? && es[j].key == key
    ensures exists i: nat :: FirstSend(es, key, i)
  {
    if l: nat :| l < j && es[l].Send? && es[l].key == key {
      SomeSendIsFirst(es, key, l);
    } else {
      assert FirstSend(es, key, j);
    }
  }

  lemma WithdrawnSnoc(es: seq<Event>, e: Event, key: Key)
    ensures Withdrawn(es + [e], key) <==> Withdrawn(es, key) || exists i: nat :: RecallCounts(es + [e], key, i, |es|)
  {
    var all := es + [e];
    forall i: nat, k: nat | k < |es| ensures RecallCounts(all, key, i, k) <==> RecallCounts(es, key, i, k) {
      FirstSendSnoc(es, e, key, i);
      assert all[k] == es[k] && (i < |es| ==> all[i] == es[i]);
    }
    if Withdrawn(es, key) {
      var i, k :| RecallCounts(es, key, i, k);
      assert RecallCounts(all, key, i, k);
    }
    if Withdrawn(all, key) {
      var i, k :| RecallCounts(all, key, i, k);
      assert k == |es| || RecallCounts(es, key, i, k);
    }
  }

  /** The row of a message is there once it was sent, with author and time of the first sending, and it is recalled if and
      only if its author recalled it less than two minutes after it was sent. */
  lemma {:induction false} RecalledIff(es: seq<Event>, key: Key)
    ensures var db := After(Db(map[], []), es);
            && (key in db.rows <==> exists i: nat :: FirstSend(es, key, i))
            && (forall i: nat :: FirstSend(es, key, i) ==> db.rows[key].author == es[i].author && db.rows[key].timestamp == es[i].timestamp)
            && (key in db.rows ==> (db.rows[key].recalled <==> Withdrawn(es, key)))
    decreases |es|
  {
    if es != [] {
      var before, e := es[..|es| - 1], es[|es| - 1];
      assert es == before + [e];
      RecalledIff(before, key);
      forall i: nat | i <= |before| ensures i < |before| ==> (FirstSend(es, key, i) <==> FirstSend(before, key, i)) {
        FirstSendSnoc(before, e, key, i);
      }
      FirstSendSnoc(before, e, key, |before|);
      WithdrawnSnoc(before, e, key);
      var db := After(Db(map[], []), before);
      if key in db.rows {
        SentStep(db, before, e, key);
      } else {
        UnsentStep(db, before, e, key);
      }
    }
  }

  lemma SentStep(db: Db, es: seq<Event>, e: Event, key: Key)
    requires key in db.rows && exists i: nat :: FirstSend(es, key, i)
    requires forall i: nat :: FirstSend(es, key, i) ==> db.rows[key].author == es[i].author && db.rows[key].timestamp == es[i].timestamp
    ensures var db' := Next(db, e);
            && key in db'.rows && db'.rows[key].author == db.rows[key].author && db'.rows[key].timestamp == db.rows[key].timestamp
            && (db'.rows[key].recalled <==> db.rows[key].recalled || exists i: nat :: RecallCounts(es + [e], key, i, |es|))
    ensures !FirstSend(es + [e], key, |es|)
  {
    var i: nat :| FirstSend(es, key, i);
    FirstSendSnoc(es, e, key, i);
    FirstSendSnoc(es, e, key, |es|);
    assert (es + [e])[i] == es[i] && (es + [e])[|es|] == e;
    forall j: nat | RecallCounts(es + [e], key, j, |es|) ensures FirstSend(es, key, j) && (es + [e])[j] == es[j] {
      FirstSendSnoc(es, e, key, j);
    }
    if e.RecallBy? && Recallable(db, e.key, e.author, e.now) && e.key == key {
      assert RecallCounts(es + [e], key, i, |es|);
    }
  }

  lemma UnsentStep(db: Db, es: seq<Event>, e: Event, key: Key)
    requires key !in db.rows && forall i: nat :: !FirstSend(es, key, i)
    ensures var db' := Next(db, e);
            && (key in db'.rows <==> FirstSend(es + [e], key, |es|))
            && (key in db'.rows ==> db'.rows[key].author == e.author && db'.rows[key].timestamp == e.timestamp && !db'.rows[key].recalled)
    ensures !Withdrawn(es, key) && !exists i: nat :: RecallCounts(es + [e], key, i, |es|)
  {
    FirstSendSnoc(es, e, key, |es|);
    forall i: nat ensures !RecallCounts(es + [e], key, i, |es|) {
      FirstSendSnoc(es, e, key, i);
    }
  }

  /** An edit changes anything if and only if it comes from the author of the first sending, at most 15 minutes after it, to
      a message not recalled by then, and is not what the row says already. */
  lemma EditedIff(es: seq<Event>, e: Event)
    requires e.EditBy?
    ensures var db := After(Db(map[], []), es);
            && (After(Db(map[], []), es + [e]) != db <==>
                  && (exists i: nat :: FirstSend(es, e.key, i) && es[i].author == e.editor && e.now - es[i].timestamp <= 900000)
                  && !Withdrawn(es, e.key) && e.key in db.rows && !SaysSo(db.rows[e.key], e.body, e.now))
            && (After(Db(map[], []), es + [e]) != db ==> EditedTo(db, After(Db(map[], []), es + [e]), e.key, e.editor, e.body, e.now))
  {
    assert (es + [e])[..|es|] == es;
    RecalledIff(es, e.key);
    var db := After(Db(map[], []), es);
    if e.key in db.rows {
      var i: nat :| FirstSend(es, e.key, i);
      assert Editable(db.rows[e.key], e.editor, e.now) <==>
             es[i].author == e.editor && e.now - es[i].timestamp <= 900000 && !Withdrawn(es, e.key);
      if After(Db(map[], []), es + [e]) != db {
        assert |After(Db(map[], []), es + [e]).edits| == |db.edits| + 1;
      }
    }
  }

  /** The update would write what is there. */
  predicate SaysSo(r: Row, body: string, now: int) {
    r.content == body && r.editedAt == Some(now) && (r.original == Some(r.content) || (r.original.Some? && r.original.value != ""))
  }

  /** The two tables after an edit that went through. */
  ghost predicate EditedTo(db: Db, db': Db, key: Key, editor: int, body: string, now: int) {
    && key in db.rows && db'.rows.Keys == db.rows.Keys
    && (forall x :: x in db.rows && x != key ==> db'.rows[x] == db.rows[x])
    && var r, r', n := db.rows[key], db'.rows[key], |db.edits|;
       && r'.author == r.author && r'.timestamp == r.timestamp && r'.recalled == r.recalled
       && r'.content == body && r'.editedAt == Some(now)
       && r'.original == (if r.original == None || r.original == Some("") then Some(r.content) else r.original)
       && |db'.edits| == n + 1 && db'.edits[..n] == db.edits
       && var x := db'.edits[n];
          x.key == key && x.editor == editor && x.oldBody == r.content && x.newBody == body && x.at == now
  }

  // ----- the service -----

  /** Which of the database operations of one call succeed. */
  datatype Luck = Luck(connected: bool, began: bool, queried: bool, updated: bool, audited: bool, committed: bool)

  class MessageService {
    var db: Db

    constructor ()
      ensures db == Db(map[], [])
    {
      db := Db(map[], []);
    }

    /** A call that fails anywhere leaves both tables as they were; one that succeeds changes both. */
    method EditMessage(id: string, editor: int, body: string, msgKind: int, now: int, luck: Luck) returns (ok: bool, oldBody: Option<string>)
      modifies this
      ensures ok ==>
        && (msgKind == 0 || msgKind == 1)
        && var key := Key(if msgKind == 0 then Private else Group, id);
           && EditedTo(old(db), db, key, editor, body, now)
           && db == Next(old(db), EditBy(key, editor, body, now))
           && oldBody == Some(old(db).rows[key].content)
      ensures !ok ==> db == old(db)
      ensures ok <==>
        && (msgKind == 0 || msgKind == 1)
        && luck == Luck(true, true, true, true, true, true)
        && var key := Key(if msgKind == 0 then Private else Group, id);
           && key in old(db).rows && old(db).rows[key].author == editor && !old(db).rows[key].recalled
           && now - old(db).rows[key].timestamp <= 900000 && !SaysSo(old(db).rows[key], body, now)
    {
      ok, oldBody := false, None;
      if msgKind != 0 && msgKind != 1 {
        return;
      }
      var key := Key(if msgKind == 0 then Private else Group, id);
      if !luck.connected || !luck.began {
        return;
      }
      var work := db;
      if !luck.queried || key !in work.rows {
        return;
      }
      var row := work.rows[key];
      if row.author != editor || row.recalled || row.timestamp < now - EDIT_WINDOW {
        return;
      }
      oldBody := Some(row.content);
      var row' := row.(content := body, editedAt := Some(now));
      if TextOf(row.original) == "" {
        row' := row'.(original := Some(row.content));
      }
      if !luck.updated || row' == row {
        return;
      }
      work := work.(rows := work.rows[key := row']);
      if !luck.audited {
        return;
      }
      work := work.(edits := work.edits + [Edit(key, editor, row.content, body, now)]);
      if luck.committed {
        db := work;
        ok := true;
      }
    }

    /** One UPDATE ... SET recalled=1, in its own transaction. */
    method Mark(key: Key, author: int, now: int, works: bool) returns (affected: int)
      modifies this
      ensures affected > 0 <==> works && MayRecall(old(db), key, author, now)
      ensures db == if affected > 0 then Next(old(db), RecallBy(key, author, now)) else old(db)
      ensures affected > 0 ==> db == old(db).(rows := old(db).rows[key := old(db).rows[key].(recalled := true)])
    {
      if !works {
        return -1;
      }
      if key in db.rows && db.rows[key].author == author && db.rows[key].timestamp > now - RECALL_WINDOW && !db.rows[key].recalled {
        db := db.(rows := db.rows[key := db.rows[key].(recalled := true)]);
        return 1;
      }
      return 0;
    }

    /** Exactly one row is recalled, the private one before the group one, by its author and less than two minutes after it
        was sent; or nothing changes. */
    method RecallMessage(id: string, author: int, now: int, connected: bool, privateWorks: bool, groupWorks: bool) returns (ok: bool)
      modifies this
      ensures var private := connected && privateWorks && MayRecall(old(db), Key(Private, id), author, now);
              var group := connected && groupWorks && MayRecall(old(db), Key(Group, id), author, now);
              && (ok <==> private || group)
              && db == if private then Next(old(db), RecallBy(Key(Private, id), author, now))
                       else if group then Next(old(db), RecallBy(Key(Group, id), author, now))
                       else old(db)
      ensures ok ==> exists kind :: RecallsBy(old(db), db, Key(kind, id), author, now)
    {
      if !connected {
        return false;
      }
      var affected := Mark(Key(Private, id), author, now, privateWorks);
      if affected > 0 {
        assert RecallsBy(old(db), db, Key(Private, id), author, now);
      } else {
        affected := Mark(Key(Group, id), author, now, groupWorks);
        assert affected > 0 ==> RecallsBy(old(db), db, Key(Group, id), author, now);
      }
      return affected > 0;
    }
  }

  /** The caller wrote the message, less than two minutes ago, and it is not recalled yet. */
  ghost predicate MayRecall(db: Db, key: Key, author: int, now: int) {
    key in db.rows && db.rows[key].author == author && now - db.rows[key].timestamp < 120000 && !db.rows[key].recalled
  }

  ghost predicate RecallsBy(db: Db, db': Db, key: Key, author: int, now: int) {
    && key in db.rows && db.rows[key].author == author && now - db.rows[key].timestamp < 120000 && !db.rows[key].recalled
    && db' == db.(rows := db.rows[key := db.rows[key].(recalled := true)])
  }
}
