/** Cold archiving of tools/archive_worker/archive.py, as a transition system over its database and storage effects. */
module Archive {

  datatype Kind = Private | Group
  datatype Msg = Msg(kind: Kind, id: int, timestamp: int, body: string)

  /** One month of one table; the month is counted as in MonthIndex. */
  datatype Part = Part(kind: Kind, month: int)
  datatype Status = Archiving | Verified | Active | DeletedSource

  datatype Db = Db(hot: set<Msg>, index: map<Part, Status>)

  /** Where each month starts, in milliseconds, and which month a time falls in. */
  datatype Calendar = Calendar(start: int -> int, month: int -> int)

  ghost predicate Proper(cal: Calendar) {
    && (forall a, b :: a < b ==> cal.start(a) < cal.start(b))
    && forall t :: cal.start(cal.month(t)) <= t < cal.start(cal.month(t) + 1)
  }

  function PartOf(cal: Calendar, m: Msg): Part {
    Part(m.kind, cal.month(m.timestamp))
  }

  function Min(a: int, b: int): int {
    if a <= b then a else b
  }

  /** The rows with month_start <= timestamp < range_end. */
  function Range(cal: Calendar, part: Part, end: int, hot: set<Msg>): set<Msg> {
    set m | m in hot && m.kind == part.kind && cal.start(part.month) <= m.timestamp < end
  }

  predicate Listed(index: map<Part, Status>, p: Part) {
    p in index && (index[p] == Verified || index[p] == DeletedSource)
  }

  // ----- the steps -----

  datatype Phase = Selected | Uploaded | Indexed | Published | Removed | Marked
  datatype Worker = Off | Idle | Busy(phase: Phase, part: Part, end: int, rows: set<Msg>)

  /**
   * committed is what survives a crash; work is what the worker's connection sees, pending changes included;
   * files are durable at once; ever holds every message stored so far; cutoff is that of the worker's connection.
   */
  datatype World = World(committed: Db, work: Db, files: map<Part, set<Msg>>, worker: Worker, ever: set<Msg>, cutoff: int)

  datatype Event =
    | Store(m: Msg)
    | Connect(cutoff: int)
    | Select(part: Part, cutoff: int)
    | Scribble(content: set<Msg>)    // a write of the file that has not finished
    | Upload
    | List
    | Publish
    | Remove
    | Mark
    | Finish
    | CommitLost                     // the commit took effect, the call reported an error
    | Leave                          // an exception, or no deletion wanted: pending changes stay with the connection
    | Die

  predicate At(w: World, ph: Phase) {
    w.worker.Busy? && w.worker.phase == ph
  }

  function To(w: Worker, ph: Phase): Worker
    requires w.Busy?
  {
    w.(phase := ph)
  }

  function End(cal: Calendar, part: Part, cutoff: int): int {
    Min(cal.start(part.month + 1), cutoff)
  }

  /** While the worker is connected, new messages are not older than its cutoff: what it reads in one transaction and deletes
      in the next are then the same rows, whatever view its reads have. */
  ghost predicate Enabled(cal: Calendar, w: World, e: Event) {
    match e
    case Store(m) => m !in w.ever && (w.worker.Off? || m.timestamp >= w.cutoff)
    case Connect(_) => w.worker.Off?
    case Select(part, cutoff) =>
      w.worker.Idle? && cutoff == w.cutoff && !Listed(w.work.index, part) && Range(cal, part, End(cal, part, cutoff), w.work.hot) != {}
    case Scribble(_) => At(w, Selected)
    case Upload => At(w, Selected)
    case List => At(w, Uploaded)
    case Publish => At(w, Indexed)
    case Remove => At(w, Published)
    case Mark => At(w, Removed)
    case Finish => At(w, Marked)
    case CommitLost => At(w, Indexed) || At(w, Marked)
    case Leave => w.worker.Busy?
    case Die => !w.worker.Off?
  }

  ghost function Next(cal: Calendar, w: World, e: Event): World
    requires Enabled(cal, w, e)
  {
    match e
    case Store(m) =>
      w.(ever := w.ever + {m}, committed := w.committed.(hot := w.committed.hot + {m}), work := w.work.(hot := w.work.hot + {m}))
    case Connect(cutoff) => w.(work := w.committed, worker := Idle, cutoff := cutoff)
    case Select(part, cutoff) =>
      var end := End(cal, part, cutoff);
      w.(worker := Busy(Selected, part, end, Range(cal, part, end, w.work.hot)))
    case Scribble(content) => w.(files := w.files[w.worker.part := content])
    case Upload => w.(files := w.files[w.worker.part := w.worker.rows], worker := To(w.worker, Uploaded))
    case List => w.(work := w.work.(index := w.work.index[w.worker.part := Verified]), worker := To(w.worker, Indexed))
    case Publish => w.(committed := w.work, worker := To(w.worker, Published))
    case Remove =>
      w.(work := w.work.(hot := w.work.hot - Range(cal, w.worker.part, w.worker.end, w.work.hot)), worker := To(w.worker, Removed))
    case Mark => w.(work := w.work.(index := w.work.index[w.worker.part := DeletedSource]), worker := To(w.worker, Marked))
    case Finish => w.(committed := w.work, worker := Idle)
    case CommitLost => w.(committed := w.work, worker := Idle)
    case Leave => w.(worker := Idle)
    case Die => w.(work := w.committed, worker := Off)
  }

  // ----- the invariant -----

  /** m can be read back through the archive index. */
  ghost predicate Archived(cal: Calendar, w: World, db: Db, m: Msg) {
    var p := PartOf(cal, m);
    Listed(db.index, p) && p in w.files && m in w.files[p]
  }

  ghost predicate Kept(cal: Calendar, w: World, db: Db, m: Msg) {
    m in db.hot || Archived(cal, w, db, m)
  }

  /** A listed file holds only messages of its own month; none of them is still hot once the source is deleted. */
  ghost predicate FileOk(cal: Calendar, w: World, db: Db, p: Part) {
    && p in w.files
    && (forall m :: m in w.files[p] ==> m in w.ever && PartOf(cal, m) == p)
    && (p in db.index && db.index[p] == DeletedSource ==> w.files[p] !! db.hot)
  }

  ghost predicate DbOk(cal: Calendar, w: World, db: Db) {
    && db.hot <= w.ever
    && (forall m {:trigger Kept(cal, w, db, m)} :: m in w.ever ==> Kept(cal, w, db, m))
    && (forall p {:trigger Listed(db.index, p)} :: Listed(db.index, p) ==> FileOk(cal, w, db, p))
  }

  ghost predicate WorkerOk(cal: Calendar, w: World) {
    w.worker.Busy? ==>
      var x := w.worker;
      && x.end <= cal.start(x.part.month + 1) && x.end <= w.cutoff
      && (forall m :: m in x.rows ==> m in w.ever && m.kind == x.part.kind && cal.start(x.part.month) <= m.timestamp < x.end)
      && (x.phase == Selected || x.phase == Uploaded ==> !Listed(w.work.index, x.part))
      && (x.phase != Selected && x.phase != Uploaded ==> Listed(w.work.index, x.part))
      && (x.phase == Published || x.phase == Removed || x.phase == Marked ==> Listed(w.committed.index, x.part))
      && (x.phase != Selected ==> x.part in w.files && w.files[x.part] == x.rows)
      && Range(cal, x.part, x.end, w.work.hot) == if x.phase == Removed || x.phase == Marked then {} else x.rows
  }

  ghost predicate Inv(cal: Calendar, w: World) {
    && DbOk(cal, w, w.committed) && DbOk(cal, w, w.work)
    && (forall p {:trigger Listed(w.committed.index, p)} :: Listed(w.committed.index, p) ==> Listed(w.work.index, p))
    && WorkerOk(cal, w)
  }

  lemma RangeIsInMonth(cal: Calendar, p: Part, end: int, m: Msg)
    requires Proper(cal) && m.kind == p.kind && cal.start(p.month) <= m.timestamp < end <= cal.start(p.month + 1)
    ensures PartOf(cal, m) == p
  {
    var k := cal.month(m.timestamp);
    assert cal.start(k) <= m.timestamp < cal.start(k + 1);
    assert k + 1 < p.month ==> cal.start(k + 1) < cal.start(p.month);
    assert p.month + 1 < k ==> cal.start(p.month + 1) < cal.start(k);
  }

  /** A step that rewrites no listed file and moves no message keeps a database sound. */
  lemma SameDb(cal: Calendar, w: World, w': World, db: Db)
    requires DbOk(cal, w, db) && w'.ever == w.ever
    requires forall p {:trigger Listed(db.index, p)} :: Listed(db.index, p) && p in w.files ==> p in w'.files && w'.files[p] == w.files[p]
    ensures DbOk(cal, w', db)
  {
    forall m | m in w'.ever ensures Kept(cal, w', db, m) {
      assert Kept(cal, w, db, m);
    }
    forall p | Listed(db.index, p) ensures FileOk(cal, w', db, p) {
      assert FileOk(cal, w, db, p);
    }
  }

  lemma StoreKeepsInv(cal: Calendar, w: World, m: Msg)
    requires Proper(cal) && Inv(cal, w) && Enabled(cal, w, Store(m))
    ensures Inv(cal, Next(cal, w, Store(m)))
  {
    var w' := Next(cal, w, Store(m));
    StoreKeepsDb(cal, w, w', w.committed, m);
    StoreKeepsDb(cal, w, w', w.work, m);
    if w.worker.Busy? {
      var part, end := w.worker.part, w.worker.end;
      assert Range(cal, part, end, w'.work.hot) == Range(cal, part, end, w.work.hot);
    }
  }

  lemma StoreKeepsDb(cal: Calendar, w: World, w': World, db: Db, m: Msg)
    requires DbOk(cal, w, db) && m !in w.ever
    requires w'.ever == w.ever + {m} && w'.files == w.files
    ensures DbOk(cal, w', db.(hot := db.hot + {m}))
  {
    var db' := db.(hot := db.hot + {m});
    forall x | x in w'.ever ensures Kept(cal, w', db', x) {
      assert x in w.ever ==> Kept(cal, w, db, x);
    }
    forall p | Listed(db'.index, p) ensures FileOk(cal, w', db', p) {
      assert Listed(db.index, p);
      assert FileOk(cal, w, db, p);
    }
  }

  lemma SelectKeepsInv(cal: Calendar, w: World, part: Part, cutoff: int)
    requires Inv(cal, w) && Enabled(cal, w, Select(part, cutoff))
    ensures Inv(cal, Next(cal, w, Select(part, cutoff)))
  {
    var w' := Next(cal, w, Select(part, cutoff));
    SameDb(cal, w, w', w.committed);
    SameDb(cal, w, w', w.work);
  }

  lemma FileKeepsInv(cal: Calendar, w: World, e: Event)
    requires Inv(cal, w) && Enabled(cal, w, e) && (e.Scribble? || e.Upload?)
    ensures Inv(cal, Next(cal, w, e))
  {
    var w' := Next(cal, w, e);
    var part := w.worker.part;
    assert !Listed(w.work.index, part);
    assert !Listed(w.committed.index, part);
    SameDb(cal, w, w', w.committed);
    SameDb(cal, w, w', w.work);
  }

  lemma ListKeepsInv(cal: Calendar, w: World)
    requires Proper(cal) && Inv(cal, w) && Enabled(cal, w, List)
    ensures Inv(cal, Next(cal, w, List))
  {
    var w' := Next(cal, w, List);
    SameDb(cal, w, w', w.committed);
    var part := w.worker.part;
    forall m | m in w'.ever ensures Kept(cal, w', w'.work, m) {
      assert Kept(cal, w, w.work, m);
    }
    forall p | Listed(w'.work.index, p) ensures FileOk(cal, w', w'.work, p) {
      if p == part {
        forall m | m in w.files[p] ensures PartOf(cal, m) == p {
          RangeIsInMonth(cal, p, w.worker.end, m);
        }
      } else {
        assert Listed(w.work.index, p);
        assert FileOk(cal, w, w.work, p);
      }
    }
    forall p | Listed(w'.committed.index, p) ensures Listed(w'.work.index, p) {
      assert Listed(w.work.index, p);
    }
  }

  lemma RemoveKeepsInv(cal: Calendar, w: World)
    requires Proper(cal) && Inv(cal, w) && Enabled(cal, w, Remove)
    ensures Inv(cal, Next(cal, w, Remove))
  {
    var w' := Next(cal, w, Remove);
    SameDb(cal, w, w', w.committed);
    var x := w.worker;
    forall m | m in w'.ever ensures Kept(cal, w', w'.work, m) {
      assert Kept(cal, w, w.work, m);
      if m in x.rows {
        RangeIsInMonth(cal, x.part, x.end, m);
      }
    }
    forall p | Listed(w'.work.index, p) ensures FileOk(cal, w', w'.work, p) {
      assert Listed(w.work.index, p);
      assert FileOk(cal, w, w.work, p);
    }
    assert Range(cal, x.part, x.end, w'.work.hot) == {};
  }

  lemma MarkKeepsInv(cal: Calendar, w: World)
    requires Inv(cal, w) && Enabled(cal, w, Mark)
    ensures Inv(cal, Next(cal, w, Mark))
  {
    var w' := Next(cal, w, Mark);
    SameDb(cal, w, w', w.committed);
    var x := w.worker;
    forall m | m in w'.ever ensures Kept(cal, w', w'.work, m) {
      assert Kept(cal, w, w.work, m);
    }
    forall p | Listed(w'.work.index, p) ensures FileOk(cal, w', w'.work, p) {
      assert Listed(w.work.index, p);
      assert FileOk(cal, w, w.work, p);
      if p == x.part {
        forall m | m in x.rows ensures m !in w.work.hot {
          assert m in w.work.hot ==> m in Range(cal, x.part, x.end, w.work.hot);
        }
      }
    }
    forall p | Listed(w'.committed.index, p) ensures Listed(w'.work.index, p) {
      assert Listed(w.work.index, p);
    }
  }

  /** Commits, exceptions and crashes: one of the two copies becomes the other, or only the worker moves. */
  lemma CommitKeepsInv(cal: Calendar, w: World, e: Event)
    requires Inv(cal, w) && Enabled(cal, w, e)
    requires e.Connect? || e.Publish? || e.Finish? || e.CommitLost? || e.Leave? || e.Die?
    ensures Inv(cal, Next(cal, w, e))
  {
    var w' := Next(cal, w, e);
    SameDb(cal, w, w', w.committed);
    SameDb(cal, w, w', w.work);
  }

  lemma NextKeepsInv(cal: Calendar, w: World, e: Event)
    requires Proper(cal) && Inv(cal, w) && Enabled(cal, w, e)
    ensures Inv(cal, Next(cal, w, e))
  {
    match e
    case Store(m) => StoreKeepsInv(cal, w, m);
    case Select(part, cutoff) => SelectKeepsInv(cal, w, part, cutoff);
    case Scribble(_) => FileKeepsInv(cal, w, e);
    case Upload => FileKeepsInv(cal, w, e);
    case List => ListKeepsInv(cal, w);
    case Remove => RemoveKeepsInv(cal, w);
    case Mark => MarkKeepsInv(cal, w);
    case _ => CommitKeepsInv(cal, w, e);
  }

  // ----- whole runs -----

  ghost predicate Linked(cal: Calendar, run: seq<World>, i: nat)
    requires i + 1 < |run|
  {
    exists e :: Enabled(cal, run[i], e) && run[i + 1] == Next(cal, run[i], e)
  }

  ghost predicate Leads(cal: Calendar, w: World, run: seq<World>, w': World) {
    && |run| > 0 && run[0] == w && run[|run| - 1] == w'
    && forall i: nat {:trigger Linked(cal, run, i)} :: i + 1 < |run| ==> Linked(cal, run, i)
  }

  lemma LeadsSnoc(cal: Calendar, w: World, run: seq<World>, w': World, e: Event)
    requires Leads(cal, w, run, w') && Enabled(cal, w', e)
    ensures Leads(cal, w, run + [Next(cal, w', e)], Next(cal, w', e))
  {
    var run' := run + [Next(cal, w', e)];
    forall i: nat | i + 1 < |run'| ensures Linked(cal, run', i) {
      if i + 1 < |run| {
        assert Linked(cal, run, i);
        assert run'[i] == run[i] && run'[i + 1] == run[i + 1];
      } else {
        assert Enabled(cal, run'[i], e) && run'[i + 1] == Next(cal, run'[i], e);
      }
    }
  }

  lemma LeadsCons(cal: Calendar, w: World, e: Event, run: seq<World>, w': World)
    requires Enabled(cal, w, e) && Leads(cal, Next(cal, w, e), run, w')
    ensures Leads(cal, w, [w] + run, w')
  {
    var run' := [w] + run;
    forall i: nat | i + 1 < |run'| ensures Linked(cal, run', i) {
      if i > 0 {
        assert Linked(cal, run, i - 1);
        assert run'[i] == run[i - 1] && run'[i + 1] == run[i];
      } else {
        assert Enabled(cal, run'[0], e) && run'[1] == Next(cal, run'[0], e);
      }
    }
  }

  lemma {:induction false} RunKeepsInv(cal: Calendar, w: World, run: seq<World>, w': World, k: nat)
    requires Proper(cal) && Inv(cal, w) && Leads(cal, w, run, w') && k < |run|
    ensures Inv(cal, run[k])
  {
    if k > 0 {
      RunKeepsInv(cal, w, run, w', k - 1);
      assert Linked(cal, run, k - 1);
      var e :| Enabled(cal, run[k - 1], e) && run[k] == Next(cal, run[k - 1], e);
      NextKeepsInv(cal, run[k - 1], e);
    }
  }

  /** Before the first archiving: everything is hot, nothing is listed. */
  function Start(hot: set<Msg>, files: map<Part, set<Msg>>): World {
    World(Db(hot, map[]), Db(hot, map[]), files, Off, hot, 0)
  }

  lemma StartOk(cal: Calendar, hot: set<Msg>, files: map<Part, set<Msg>>)
    ensures Inv(cal, Start(hot, files))
  {
    var w := Start(hot, files);
    forall m | m in w.ever ensures Kept(cal, w, w.work, m) {
    }
  }

  /**
   * At every point of every run, what a crash would leave holds each message ever stored, in the hot table or in
   * the listed file of its month and of no other month.
   */
  lemma NothingIsLost(cal: Calendar, hot: set<Msg>, files: map<Part, set<Msg>>, run: seq<World>, w: World, k: nat, m: Msg)
    requires Proper(cal) && Leads(cal, Start(hot, files), run, w) && k < |run| && m in run[k].ever
    ensures m in run[k].committed.hot || Archived(cal, run[k], run[k].committed, m)
    ensures forall p :: Listed(run[k].committed.index, p) && p in run[k].files && m in run[k].files[p] ==> p == PartOf(cal, m)
  {
    var w0 := Start(hot, files);
    StartOk(cal, hot, files);
    RunKeepsInv(cal, w0, run, w, k);
    assert Kept(cal, run[k], run[k].committed, m);
    forall p | Listed(run[k].committed.index, p) && p in run[k].files && m in run[k].files[p] ensures p == PartOf(cal, m) {
      assert FileOk(cal, run[k], run[k].committed, p);
    }
  }

  lemma ListedStays(cal: Calendar, w: World, e: Event, p: Part)
    requires Inv(cal, w) && Enabled(cal, w, e) && Listed(w.committed.index, p)
    ensures var w' := Next(cal, w, e);
            Listed(w'.committed.index, p) && p in w.files && p in w'.files && w'.files[p] == w.files[p]
  {
    assert Listed(w.work.index, p);
    assert FileOk(cal, w, w.committed, p);
  }

  /** Once a partition is listed its file never changes again, so a cached copy never goes stale. */
  lemma {:induction false} ListedFileIsForever(cal: Calendar, w: World, run: seq<World>, w': World, k: nat, p: Part)
    requires Proper(cal) && Inv(cal, w) && Leads(cal, w, run, w') && k < |run| && Listed(w.committed.index, p)
    ensures Listed(run[k].committed.index, p)
    ensures p in w.files && p in run[k].files && run[k].files[p] == w.files[p]
  {
    if k == 0 {
      assert FileOk(cal, w, w.committed, p);
    } else {
      ListedFileIsForever(cal, w, run, w', k - 1, p);
      RunKeepsInv(cal, w, run, w', k - 1);
      assert Linked(cal, run, k - 1);
      var e :| Enabled(cal, run[k - 1], e) && run[k] == Next(cal, run[k - 1], e);
      ListedStays(cal, run[k - 1], e, p);
    }
  }

  /** m is hot, its month is listed, and no deletion under way reaches m. */
  ghost predicate Leftover(cal: Calendar, w: World, m: Msg) {
    && Listed(w.committed.index, PartOf(cal, m))
    && m in w.committed.hot && m in w.work.hot
    && (w.worker.Busy? && w.worker.part == PartOf(cal, m) ==> m.timestamp >= w.worker.end)
  }

  lemma LeftoverStays(cal: Calendar, w: World, e: Event, m: Msg)
    requires Proper(cal) && Inv(cal, w) && Enabled(cal, w, e) && Leftover(cal, w, m)
    ensures Leftover(cal, Next(cal, w, e), m)
  {
    assert Listed(w.work.index, PartOf(cal, m));
    ListedStays(cal, w, e, PartOf(cal, m));
    if e.Remove? {
      var part, end := w.worker.part, w.worker.end;
      if m in Range(cal, part, end, w.work.hot) {
        RangeIsInMonth(cal, part, end, m);
      }
    }
  }

  /** A month archived up to the cutoff inside it is skipped from then on: the rest of it stays hot for good. */
  lemma {:induction false} PartialMonthIsNeverCompleted(cal: Calendar, w: World, run: seq<World>, w': World, k: nat, m: Msg)
    requires Proper(cal) && Inv(cal, w) && Leads(cal, w, run, w') && k < |run| && Leftover(cal, w, m)
    ensures Leftover(cal, run[k], m)
  {
    if k > 0 {
      PartialMonthIsNeverCompleted(cal, w, run, w', k - 1, m);
      RunKeepsInv(cal, w, run, w', k - 1);
      assert Linked(cal, run, k - 1);
      var e :| Enabled(cal, run[k - 1], e) && run[k] == Next(cal, run[k - 1], e);
      LeftoverStays(cal, run[k - 1], e, m);
    }
  }

  /** When a month is published every message of it is either in the file or left over, as its time says. */
  lemma PublishedMonthIsCut(cal: Calendar, w: World, m: Msg)
    requires Proper(cal) && Inv(cal, w) && At(w, Published) && m in w.ever && PartOf(cal, m) == w.worker.part
    ensures m.timestamp < w.worker.end <==> Archived(cal, w, w.committed, m)
    ensures m.timestamp >= w.worker.end <==> Leftover(cal, w, m)
  {
    var part, end := w.worker.part, w.worker.end;
    assert cal.start(part.month) <= m.timestamp;
    assert Kept(cal, w, w.work, m) && Kept(cal, w, w.committed, m);
    assert m in w.work.hot ==> (m in Range(cal, part, end, w.work.hot) <==> m.timestamp < end);
  }

  /** So the end of the range at the first publication decides, for good, what of a month is ever archived. */
  lemma FirstPublicationDecides(cal: Calendar, w: World, run: seq<World>, w': World, k: nat, m: Msg)
    requires Proper(cal) && Inv(cal, w) && At(w, Published) && m in w.ever && PartOf(cal, m) == w.worker.part
    requires Leads(cal, w, run, w') && k < |run|
    ensures Archived(cal, run[k], run[k].committed, m) <==> m.timestamp < w.worker.end
    ensures m.timestamp >= w.worker.end ==> m in run[k].committed.hot
  {
    PublishedMonthIsCut(cal, w, m);
    ListedFileIsForever(cal, w, run, w', k, w.worker.part);
    if m.timestamp >= w.worker.end {
      PartialMonthIsNeverCompleted(cal, w, run, w', k, m);
    }
  }

  lemma LeadsSuffix(cal: Calendar, w: World, run: seq<World>, w': World, i: nat)
    requires Leads(cal, w, run, w') && i < |run|
    ensures Leads(cal, run[i], run[i..], w')
  {
    var rest := run[i..];
    forall j: nat | j + 1 < |rest| ensures Linked(cal, rest, j) {
      assert Linked(cal, run, i + j);
      assert rest[j] == run[i + j] && rest[j + 1] == run[i + j + 1];
    }
  }

  // ----- a month cut in two -----

  /** Archiving a partition without trouble up to its first commit. */
  lemma PublishRun(cal: Calendar, w: World, part: Part, cutoff: int) returns (run: seq<World>, w': World)
    requires Enabled(cal, w, Select(part, cutoff))
    ensures Leads(cal, w, run, w') && w'.ever == w.ever
    ensures At(w', Published) && w'.worker.part == part && w'.worker.end == End(cal, part, cutoff)
  {
    var w1 := Next(cal, w, Select(part, cutoff));
    var w2 := Next(cal, w1, Upload);
    var w3 := Next(cal, w2, List);
    w' := Next(cal, w3, Publish);
    run := [w];
    LeadsSnoc(cal, w, run, w, Select(part, cutoff));
    run := run + [w1];
    LeadsSnoc(cal, w, run, w1, Upload);
    run := run + [w2];
    LeadsSnoc(cal, w, run, w2, List);
    run := run + [w3];
    LeadsSnoc(cal, w, run, w3, Publish);
    run := run + [w'];
  }

  /** Whenever the cutoff falls between two messages of an unlisted month, the later one can be left over for good. */
  lemma CutoffInsideAMonth(cal: Calendar, w: World, early: Msg, late: Msg, cutoff: int) returns (run: seq<World>, w': World)
    requires Proper(cal) && Inv(cal, w) && w.worker == Off && early in w.committed.hot && late in w.committed.hot
    requires PartOf(cal, early) == PartOf(cal, late) && !Listed(w.committed.index, PartOf(cal, early))
    requires early.timestamp < cutoff <= late.timestamp
    ensures Leads(cal, w, run, w') && Archived(cal, w', w'.committed, early) && Leftover(cal, w', late)
  {
    var part := PartOf(cal, early);
    var w0 := Next(cal, w, Connect(cutoff));
    assert early in Range(cal, part, End(cal, part, cutoff), w0.work.hot);
    var rest;
    rest, w' := PublishRun(cal, w0, part, cutoff);
    run := [w] + rest;
    LeadsCons(cal, w, Connect(cutoff), rest, w');
    RunKeepsInv(cal, w, run, w', |run| - 1);
    PublishedMonthIsCut(cal, w', early);
    PublishedMonthIsCut(cal, w', late);
  }
}
