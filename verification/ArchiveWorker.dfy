/** archive_partition and the month loop of main, proved to be runs of the transition system in module Archive. */
module ArchiveExecution {
  import opened Archive
  import opened Options

  function MonthIndex(year: int, month: int): int {
    12 * year + month - 1
  }

  /** main's step to the next month. */
  function NextMonth(year: int, month: int): (int, int) {
    if month == 12 then (year + 1, 1) else (year, month + 1)
  }

  predicate NotAfter(year: int, month: int, endYear: int, endMonth: int) {
    year < endYear || (year == endYear && month <= endMonth)
  }

  /** Both ways of stepping to the next month agree, and the tuple comparison is the order of months. */
  lemma MonthsAreInOrder(year: int, month: int, endYear: int, endMonth: int)
    requires 1 <= month <= 12 && 1 <= endMonth <= 12
    ensures MonthIndex(year + month / 12, month % 12 + 1) == MonthIndex(year, month) + 1
    ensures var (y, m) := NextMonth(year, month); 1 <= m <= 12 && MonthIndex(y, m) == MonthIndex(year, month) + 1
    ensures NotAfter(year, month, endYear, endMonth) <==> MonthIndex(year, month) <= MonthIndex(endYear, endMonth)
    ensures MonthIndex(year, month) / 12 == year && MonthIndex(year, month) % 12 + 1 == month
  {
  }

  /** A commit may fail, with or without having taken effect. */
  datatype Commitment = Commitment(works: bool, reported: bool)

  /** What goes well while one partition is archived; partial is what an unfinished write leaves in the file. */
  datatype Luck = Luck(encoded: bool, partial: set<Msg>, wrote: bool, indexed: bool, first: Commitment,
                       deleted: bool, marked: bool, second: Commitment)

  predicate Fine(c: Commitment) {
    c.works && c.reported
  }

  predicate Publishes(luck: Luck) {
    luck.encoded && luck.wrote && luck.indexed && Fine(luck.first)
  }

  predicate Deletes(luck: Luck) {
    luck.deleted && luck.marked && Fine(luck.second)
  }

  predicate AllFine(luck: Luck, deleteAfter: bool) {
    Publishes(luck) && (deleteAfter ==> Deletes(luck))
  }

  /** Some partition between the two months meets a failure. */
  ghost predicate SomethingFails(luck: (int, Kind) -> Luck, deleteAfter: bool, first: int, last: int) {
    exists month, kind :: first <= month <= last && !AllFine(luck(month, kind), deleteAfter)
  }

  datatype Outcome = Skipped | Done(rows: nat) | Raised

  /** Every message of the partition older than the cutoff is in its listed file. */
  ghost predicate Covered(cal: Calendar, w: World, p: Part, cutoff: int) {
    && Listed(w.work.index, p) && p in w.files
    && forall m :: m in w.ever && PartOf(cal, m) == p && m.timestamp < cutoff ==> m in w.files[p]
  }

  /** What was hot in the partition at or after the cutoff is left over. */
  ghost predicate LeavesRest(cal: Calendar, w0: World, w: World, p: Part, cutoff: int) {
    forall m :: m in w0.work.hot && PartOf(cal, m) == p && m.timestamp >= cutoff ==> Leftover(cal, w, m)
  }

  /** Listed partitions and files other than those of p are as before. */
  ghost predicate LeavesOthers(w0: World, w: World, p: Part) {
    && (forall q {:trigger Listed(w.work.index, q)} :: q != p ==> (Listed(w.work.index, q) <==> Listed(w0.work.index, q)))
    && forall q :: q in w0.files && q != p ==> q in w.files && w.files[q] == w0.files[q]
  }

  ghost predicate LeavesOtherMonths(w0: World, w: World, month: int) {
    && (forall q: Part {:trigger Listed(w.work.index, q)} :: q.month != month ==> (Listed(w.work.index, q) <==> Listed(w0.work.index, q)))
    && forall q: Part :: q in w0.files && q.month != month ==> q in w.files && w.files[q] == w0.files[q]
  }

  lemma BothLeaveOthers(w0: World, w1: World, w: World, month: int)
    requires LeavesOthers(w0, w1, Part(Private, month)) && LeavesOthers(w1, w, Part(Group, month))
    ensures LeavesOtherMonths(w0, w, month)
  {
    forall q: Part | q.month != month ensures Listed(w.work.index, q) <==> Listed(w0.work.index, q) {
      assert Listed(w1.work.index, q) <==> Listed(w0.work.index, q);
    }
  }

  lemma PublishedCovers(cal: Calendar, w: World, cutoff: int)
    requires Proper(cal) && Inv(cal, w) && At(w, Published) && w.worker.end == End(cal, w.worker.part, cutoff)
    ensures Covered(cal, w, w.worker.part, cutoff)
  {
    var p, end := w.worker.part, w.worker.end;
    forall m | m in w.ever && PartOf(cal, m) == p && m.timestamp < cutoff ensures m in w.files[p] {
      assert Kept(cal, w, w.work, m);
      assert m in w.work.hot ==> m in Range(cal, p, end, w.work.hot);
    }
  }

  /** Unless the partition was listed before, all of it up to the cutoff is now in its listed file. */
  ghost predicate Settled(cal: Calendar, w: World, before: map<Part, Status>, p: Part, cutoff: int) {
    Listed(before, p) || forall m :: m in w.ever && PartOf(cal, m) == p && m.timestamp < cutoff ==> Archived(cal, w, w.committed, m)
  }

  lemma EmptyRangeSettles(cal: Calendar, w: World, p: Part, cutoff: int)
    requires Proper(cal) && Inv(cal, w) && Range(cal, p, End(cal, p, cutoff), w.work.hot) == {}
    ensures Settled(cal, w, w.work.index, p, cutoff)
  {
    var end := End(cal, p, cutoff);
    forall m | m in w.ever && PartOf(cal, m) == p && m.timestamp < cutoff ensures Listed(w.work.index, p) {
      assert Kept(cal, w, w.work, m);
      assert m !in Range(cal, p, end, w.work.hot);
    }
  }

  /** What is settled stays so, whatever happens later. */
  lemma SettledForever(cal: Calendar, run: seq<World>, i: nat, w: World, before: map<Part, Status>, p: Part, cutoff: int)
    requires Proper(cal) && i < |run| && Inv(cal, run[0]) && Leads(cal, run[0], run, w) && w.ever == run[i].ever
    requires Settled(cal, run[i], before, p, cutoff)
    ensures Settled(cal, w, before, p, cutoff)
  {
    RunKeepsInv(cal, run[0], run, w, i);
    LeadsSuffix(cal, run[0], run, w, i);
    if Listed(run[i].committed.index, p) {
      ListedFileIsForever(cal, run[i], run[i..], w, |run| - 1 - i, p);
    }
    forall m | !Listed(before, p) && m in w.ever && PartOf(cal, m) == p && m.timestamp < cutoff ensures Archived(cal, w, w.committed, m) {
      assert Archived(cal, run[i], run[i].committed, m);
    }
  }

  lemma MonthIsMonotone(cal: Calendar, s: int, t: int)
    requires Proper(cal) && s <= t
    ensures cal.month(s) <= cal.month(t)
  {
    var i, j := cal.month(s), cal.month(t);
    assert cal.start(i) <= s < cal.start(i + 1) && cal.start(j) <= t < cal.start(j + 1);
    assert j + 1 < i ==> cal.start(j + 1) < cal.start(i);
  }

  /** The partition met no failure, or nothing at all did. */
  predicate Fares(luck: (int, Kind) -> Luck, deleteAfter: bool, raised: bool, p: Part) {
    !raised || AllFine(luck(p.month, p.kind), deleteAfter)
  }

  /**
   * What becomes of a message older than the cutoff, from world w0 to world w: in a month listed before, it is archived
   * exactly if it was; in another month it is archived if its own partition fares well.
   */
  ghost predicate Fate(cal: Calendar, w0: World, w: World, m: Msg, fares: bool) {
    var p := PartOf(cal, m);
    if Listed(w0.committed.index, p) then Archived(cal, w, w.committed, m) <==> Archived(cal, w0, w0.committed, m)
    else fares ==> Archived(cal, w, w.committed, m)
  }

  /** Settling the months between the oldest hot message and the cutoff decides every old message. */
  lemma OldFate(cal: Calendar, run: seq<World>, i: nat, w: World, oldest: Option<int>, cutoff: int, m: Msg, fares: bool)
    requires Proper(cal) && i < |run| && Inv(cal, run[0]) && Leads(cal, run[0], run, w) && w.ever == run[i].ever
    requires run[i].work == run[i].committed && m in w.ever && m.timestamp < cutoff
    requires oldest == None ==> run[i].work.hot == {}
    requires oldest.Some? ==> forall x :: x in run[i].work.hot ==> oldest.value <= x.timestamp
    requires oldest.Some? && fares && cal.month(oldest.value) <= PartOf(cal, m).month <= cal.month(cutoff) ==>
               Settled(cal, w, run[i].work.index, PartOf(cal, m), cutoff)
    ensures Fate(cal, run[i], w, m, fares)
  {
    var w0, p := run[i], PartOf(cal, m);
    RunKeepsInv(cal, run[0], run, w, i);
    if Listed(w0.committed.index, p) {
      LeadsSuffix(cal, run[0], run, w, i);
      ListedFileIsForever(cal, w0, run[i..], w, |run| - 1 - i, p);
    } else {
      assert Kept(cal, w0, w0.work, m);
      MonthIsMonotone(cal, oldest.value, m.timestamp);
      MonthIsMonotone(cal, m.timestamp, cutoff);
    }
  }

  /** Every partition from first up to but not including next that fares well is settled. */
  ghost predicate SettledSoFar(cal: Calendar, w: World, before: map<Part, Status>, cutoff: int, luck: (int, Kind) -> Luck,
                               deleteAfter: bool, raised: bool, first: int, next: int) {
    forall p: Part {:trigger Settled(cal, w, before, p, cutoff)} ::
      first <= p.month < next && Fares(luck, deleteAfter, raised, p) ==> Settled(cal, w, before, p, cutoff)
  }

  /** From the given month on the same partitions are listed. */
  ghost predicate SameFrom(index: map<Part, Status>, before: map<Part, Status>, month: int) {
    forall p: Part {:trigger Listed(index, p)} :: p.month >= month ==> (Listed(index, p) <==> Listed(before, p))
  }

  lemma SameFromNext(index: map<Part, Status>, index': map<Part, Status>, before: map<Part, Status>, month: int)
    requires SameFrom(index, before, month)
    requires forall p: Part :: p.month != month ==> (Listed(index', p) <==> Listed(index, p))
    ensures SameFrom(index', before, month + 1)
  {
    forall p: Part | p.month >= month + 1 ensures Listed(index', p) <==> Listed(before, p) {
      assert Listed(index', p) <==> Listed(index, p);
    }
  }

  lemma BothSettled(cal: Calendar, w: World, before: map<Part, Status>, now: int, cutoff: int, luck: (int, Kind) -> Luck,
                    deleteAfter: bool, raised: bool)
    requires Fares(luck, deleteAfter, raised, Part(Private, now)) ==> Settled(cal, w, before, Part(Private, now), cutoff)
    requires Fares(luck, deleteAfter, raised, Part(Group, now)) ==> Settled(cal, w, before, Part(Group, now), cutoff)
    ensures SettledSoFar(cal, w, before, cutoff, luck, deleteAfter, raised, now, now + 1)
  {
    forall p: Part | p.month == now && Fares(luck, deleteAfter, raised, p) ensures Settled(cal, w, before, p, cutoff) {
      if p.kind == Private {
        assert p == Part(Private, now);
      } else {
        assert p == Part(Group, now);
      }
    }
  }

  lemma SettledOneMore(cal: Calendar, run: seq<World>, i: nat, w: World, before: map<Part, Status>, beforeNow: map<Part, Status>, cutoff: int,
                       luck: (int, Kind) -> Luck, deleteAfter: bool, raised: bool, failed: bool, first: int, now: int)
    requires Proper(cal) && i < |run| && Inv(cal, run[0]) && Leads(cal, run[0], run, w) && w.ever == run[i].ever
    requires SettledSoFar(cal, run[i], before, cutoff, luck, deleteAfter, raised, first, now)
    requires SettledSoFar(cal, w, beforeNow, cutoff, luck, deleteAfter, failed, now, now + 1)
    requires SameFrom(beforeNow, before, now)
    ensures SettledSoFar(cal, w, before, cutoff, luck, deleteAfter, raised || failed, first, now + 1)
  {
    forall p: Part | first <= p.month <= now && Fares(luck, deleteAfter, raised || failed, p) ensures Settled(cal, w, before, p, cutoff) {
      if p.month < now {
        SettledForever(cal, run, i, w, before, p, cutoff);
      } else {
        assert Settled(cal, w, beforeNow, p, cutoff);
      }
    }
  }

  ghost predicate Fates(cal: Calendar, w0: World, w: World, cutoff: int, luck: (int, Kind) -> Luck, deleteAfter: bool, raised: bool) {
    forall m {:trigger Archived(cal, w, w.committed, m)} :: m in w.ever && m.timestamp < cutoff ==>
      Fate(cal, w0, w, m, Fares(luck, deleteAfter, raised, PartOf(cal, m)))
  }

  lemma AllFates(cal: Calendar, w0: World, run: seq<World>, i: nat, j: nat, w: World, oldest: Option<int>, cutoff: int, luck: (int, Kind) -> Luck,
                 deleteAfter: bool, raised: bool)
    requires Proper(cal) && i <= j < |run| && Inv(cal, run[0]) && Leads(cal, run[0], run, w)
    requires w.ever == run[i].ever == run[j].ever && run[i].work == run[i].committed
    requires oldest == None ==> run[i].work.hot == {}
    requires oldest.Some? ==> forall x :: x in run[i].work.hot ==> oldest.value <= x.timestamp
    requires oldest.Some? ==>
      SettledSoFar(cal, run[j], run[i].work.index, cutoff, luck, deleteAfter, raised, cal.month(oldest.value), cal.month(cutoff) + 1)
    requires w0.committed == run[i].committed && w0.files == run[i].files
    ensures Fates(cal, w0, w, cutoff, luck, deleteAfter, raised)
  {
    forall m | m in w.ever && m.timestamp < cutoff ensures Fate(cal, w0, w, m, Fares(luck, deleteAfter, raised, PartOf(cal, m))) {
      var p := PartOf(cal, m);
      if oldest.Some? && Fares(luck, deleteAfter, raised, p) && cal.month(oldest.value) <= p.month <= cal.month(cutoff) {
        assert Settled(cal, run[j], run[i].work.index, p, cutoff);
        SettledForever(cal, run, j, w, run[i].work.index, p, cutoff);
      }
      OldFate(cal, run, i, w, oldest, cutoff, m, Fares(luck, deleteAfter, raised, p));
    }
  }

  class ArchiveWorker {
    const cal: Calendar
    var committed: Db
    var work: Db
    var files: map<Part, set<Msg>>
    ghost var worker: Worker
    ghost var ever: set<Msg>
    ghost var cutoff: int
    ghost var run: seq<World>

    constructor (cal: Calendar, hot: set<Msg>, files: map<Part, set<Msg>>)
      requires Proper(cal)
      ensures Valid() && W() == Start(hot, files) && this.cal == cal
    {
      this.cal, this.files := cal, files;
      committed, work := Db(hot, map[]), Db(hot, map[]);
      worker, ever, cutoff, run := Off, hot, 0, [Start(hot, files)];
      StartOk(cal, hot, files);
    }

    ghost function W(): World
      reads this
    {
      World(committed, work, files, worker, ever, cutoff)
    }

    /** The worlds passed through so far, the present one last, each a step from the one before it. */
    ghost predicate Valid()
      reads this
    {
      Proper(cal) && |run| > 0 && Inv(cal, run[0]) && Leads(cal, run[0], run, W())
    }

    lemma Sound()
      requires Valid()
      ensures Inv(cal, W())
    {
      RunKeepsInv(cal, run[0], run, W(), |run| - 1);
    }

    /** Puts the step just taken on record. */
    ghost method Took(e: Event)
      requires Proper(cal) && |run| > 0
      requires var w := run[|run| - 1]; Inv(cal, run[0]) && Leads(cal, run[0], run, w) && Enabled(cal, w, e) && W() == Next(cal, w, e)
      modifies this`run
      ensures Valid() && run == old(run) + [W()]
    {
      var w := run[|run| - 1];
      LeadsSnoc(cal, run[0], run, w, e);
      run := run + [W()];
    }

    ghost method Leaves()
      requires Valid() && worker.Busy?
      modifies this`worker, this`run
      ensures Valid() && worker == Idle && old(run) <= run
    {
      worker := Idle;
      Took(Leave);
    }

    /** conn.commit(); it may fail, with or without effect. */
    method Commit(c: Commitment) returns (ok: bool)
      requires Valid() && worker.Busy? && (worker.phase == Indexed || worker.phase == Marked)
      modifies this`committed, this`worker, this`run
      ensures Valid() && old(run) <= run
      ensures ok <==> c.works && c.reported
      ensures committed == if c.works then work else old(committed)
      ensures ok ==> worker == if old(worker).phase == Indexed then To(old(worker), Published) else Idle
      ensures !ok ==> worker == Idle
    {
      if !c.works {
        Leaves();
        return false;
      }
      committed := work;
      if !c.reported {
        worker := Idle;
        Took(CommitLost);
        return false;
      }
      if worker.phase == Indexed {
        worker := To(worker, Published);
        Took(Publish);
      } else {
        worker := Idle;
        Took(Finish);
      }
      return true;
    }

    /** upload_to_storage: the file may be left half written. */
    method WriteFile(part: Part, rows: set<Msg>, luck: Luck) returns (ok: bool)
      requires Valid() && At(W(), Selected) && worker.part == part && worker.rows == rows
      modifies this`files, this`worker, this`run
      ensures Valid() && old(run) <= run
      ensures ok <==> luck.wrote
      ensures files == old(files)[part := if ok then rows else luck.partial]
      ensures worker == if ok then To(old(worker), Uploaded) else Idle
    {
      files := files[part := luck.partial];
      Took(Scribble(luck.partial));
      if !luck.wrote {
        Leaves();
        return false;
      }
      files := files[part := rows];
      worker := To(worker, Uploaded);
      Took(Upload);
      return true;
    }

    /** The index entry and the first commit. */
    method ListFile(part: Part, luck: Luck) returns (ok: bool)
      requires Valid() && At(W(), Uploaded) && worker.part == part
      modifies this`committed, this`work, this`worker, this`run
      ensures Valid() && old(run) <= run
      ensures ok <==> luck.indexed && luck.first.works && luck.first.reported
      ensures work == if luck.indexed then old(work).(index := old(work).index[part := Verified]) else old(work)
      ensures worker == if ok then To(old(worker), Published) else Idle
      ensures ok ==> committed == work
    {
      if !luck.indexed {
        Leaves();
        return false;
      }
      work := work.(index := work.index[part := Verified]);
      worker := To(worker, Indexed);
      Took(List);
      ok := Commit(luck.first);
    }

    /** The upload and the index entry, up to the first commit. */
    method PublishFile(part: Part, rows: set<Msg>, luck: Luck) returns (ok: bool)
      requires Valid() && At(W(), Selected) && worker.part == part && worker.rows == rows
      modifies this`committed, this`work, this`files, this`worker, this`run
      ensures Valid() && old(run) <= run
      ensures work == old(work) || work == old(work).(index := old(work).index[part := Verified])
      ensures forall p :: p in old(files) && p != part ==> p in files && files[p] == old(files)[p]
      ensures worker == if ok then To(old(worker), Published) else Idle
      ensures ok <==> luck.encoded && luck.wrote && luck.indexed && luck.first.works && luck.first.reported
      ensures ok ==> committed == work && work == old(work).(index := old(work).index[part := Verified])
    {
      if !luck.encoded {
        Leaves();
        return false;
      }
      ok := WriteFile(part, rows, luck);
      if ok {
        ok := ListFile(part, luck);
      }
    }

    /** DELETE FROM ... over the archived range. */
    method DeleteRows(part: Part, end: int, works: bool) returns (ok: bool)
      requires Valid() && At(W(), Published) && worker.part == part && worker.end == end
      modifies this`work, this`worker, this`run
      ensures Valid() && old(run) <= run && ok == works
      ensures worker == if ok then To(old(worker), Removed) else Idle
      ensures work == if ok then old(work).(hot := old(work).hot - Range(cal, part, end, old(work).hot)) else old(work)
    {
      if !works {
        Leaves();
        return false;
      }
      work := work.(hot := work.hot - Range(cal, part, end, work.hot));
      worker := To(worker, Removed);
      Took(Remove);
      return true;
    }

    /** The deletion and its index entry, up to the second commit. */
    method DeleteSource(part: Part, end: int, luck: Luck) returns (ok: bool)
      requires Valid() && At(W(), Published) && worker.part == part && worker.end == end
      modifies this`committed, this`work, this`worker, this`run
      ensures Valid() && old(run) <= run && worker == Idle
      ensures work.hot <= old(work).hot
      ensures work.index == old(work).index || work.index == old(work).index[part := DeletedSource]
      ensures ok <==> luck.deleted && luck.marked && luck.second.works && luck.second.reported
      ensures ok ==> committed == work && work == Db(old(work).hot - Range(cal, part, end, old(work).hot), old(work).index[part := DeletedSource])
    {
      ok := DeleteRows(part, end, luck.deleted);
      if !ok {
        return;
      }
      if !luck.marked {
        Leaves();
        return false;
      }
      work := work.(index := work.index[part := DeletedSource]);
      worker := To(worker, Marked);
      Took(Mark);
      ok := Commit(luck.second);
    }

    /** From the SELECT that found rows to the end. */
    method MoveRows(part: Part, cutoff: int, end: int, deleteAfter: bool, luck: Luck) returns (ok: bool)
      requires Valid() && At(W(), Selected) && worker.part == part && end == worker.end == End(cal, part, cutoff)
      modifies this`committed, this`work, this`files, this`worker, this`run
      ensures Valid() && worker == Idle && old(run) <= run
      ensures work.hot <= old(work).hot
      ensures LeavesOthers(old(W()), W(), part)
      ensures ok <==>
        && luck.encoded && luck.wrote && luck.indexed && luck.first.works && luck.first.reported
        && (deleteAfter ==> luck.deleted && luck.marked && luck.second.works && luck.second.reported)
      ensures ok ==> committed == work && Covered(cal, W(), part, cutoff)
      ensures ok && deleteAfter ==> work.hot == old(work).hot - Range(cal, part, end, old(work).hot) && work.index[part] == DeletedSource
      ensures ok && !deleteAfter ==> work.hot == old(work).hot && work.index[part] == Verified
      ensures ok ==> LeavesRest(cal, old(W()), W(), part, cutoff)
    {
      Sound();
      ok := PublishFile(part, Range(cal, part, end, work.hot), luck);
      if !ok {
        return;
      }
      Sound();
      PublishedCovers(cal, W(), cutoff);
      if !deleteAfter {
        Leaves();
        return;
      }
      ok := DeleteSource(part, end, luck);
    }

    method ArchivePartition(kind: Kind, year: int, month: int, cutoff: int, deleteAfter: bool, luck: Luck) returns (outcome: Outcome)
      requires Valid() && worker == Idle && 1 <= month <= 12 && cutoff == this.cutoff
      modifies this`committed, this`work, this`files, this`worker, this`run
      ensures Valid() && worker == Idle && old(run) <= run
      ensures work.hot <= old(work).hot
      ensures LeavesOthers(old(W()), W(), Part(kind, MonthIndex(year, month)))
      ensures outcome == Skipped ==> W() == old(W())
      ensures outcome.Done? ==> committed == work
      ensures var p := Part(kind, MonthIndex(year, month));
              && (outcome == Skipped <==>
                    (p in old(work).index && (old(work).index[p] == Verified || old(work).index[p] == DeletedSource))
                    || Range(cal, p, End(cal, p, cutoff), old(work).hot) == {})
              && (outcome.Raised? ==> !AllFine(luck, deleteAfter))
              && (!outcome.Raised? ==> Settled(cal, W(), old(work).index, p, cutoff))
              && (outcome.Done? ==> outcome.rows == |Range(cal, p, End(cal, p, cutoff), old(work).hot)| > 0 && Covered(cal, W(), p, cutoff))
              && (outcome.Done? ==> LeavesRest(cal, old(W()), W(), p, cutoff))
    {
      MonthsAreInOrder(year, month, year, month);
      Sound();
      var part := Part(kind, MonthIndex(year, month));
      if Listed(work.index, part) {
        return Skipped;
      }
      var monthEnd := cal.start(MonthIndex(year + month / 12, month % 12 + 1));
      var end := Min(monthEnd, cutoff);
      if end <= cal.start(part.month) {
        EmptyRangeSettles(cal, W(), part, cutoff);
        return Skipped;
      }
      var rows := Range(cal, part, end, work.hot);
      if rows == {} {
        EmptyRangeSettles(cal, W(), part, cutoff);
        return Skipped;
      }
      worker := Busy(Selected, part, end, rows);
      Took(Select(part, cutoff));
      var ok := MoveRows(part, cutoff, end, deleteAfter, luck);
      return if ok then Done(|rows|) else Raised;
    }

    /** Both tables for one month; an exception in one does not affect the other. */
    method ArchiveMonth(year: int, month: int, cutoff: int, deleteAfter: bool, luck: (int, Kind) -> Luck) returns (raised: bool)
      requires Valid() && worker == Idle && 1 <= month <= 12 && cutoff == this.cutoff
      modifies this`committed, this`work, this`files, this`worker, this`run
      ensures Valid() && worker == Idle && old(run) <= run && work.hot <= old(work).hot
      ensures LeavesOtherMonths(old(W()), W(), MonthIndex(year, month))
      ensures raised ==> exists kind :: !AllFine(luck(MonthIndex(year, month), kind), deleteAfter)
      ensures SettledSoFar(cal, W(), old(work).index, cutoff, luck, deleteAfter, raised, MonthIndex(year, month), MonthIndex(year, month) + 1)
    {
      ghost var index, now := work.index, MonthIndex(year, month);
      ghost var w0 := W();
      var first := ArchivePartition(Private, year, month, cutoff, deleteAfter, luck(MonthIndex(year, month), Private));
      ghost var i, w1 := |run| - 1, W();
      var second := ArchivePartition(Group, year, month, cutoff, deleteAfter, luck(MonthIndex(year, month), Group));
      raised := first.Raised? || second.Raised?;
      if !first.Raised? {
        SettledForever(cal, run, i, W(), index, Part(Private, now), cutoff);
      }
      BothSettled(cal, W(), index, now, cutoff, luck, deleteAfter, raised);
      BothLeaveOthers(w0, w1, W(), now);
    }

    /** One turn of the month loop, after the months from first on were gone through. */
    method OneMoreMonth(year: int, month: int, cutoff: int, deleteAfter: bool, luck: (int, Kind) -> Luck,
                        ghost index: map<Part, Status>, ghost raised: bool, ghost first: int) returns (failed: bool)
      requires Valid() && worker == Idle && 1 <= month <= 12 && cutoff == this.cutoff && SameFrom(work.index, index, MonthIndex(year, month))
      requires SettledSoFar(cal, W(), index, cutoff, luck, deleteAfter, raised, first, MonthIndex(year, month))
      modifies this`committed, this`work, this`files, this`worker, this`run
      ensures Valid() && worker == Idle && old(run) <= run
      ensures failed ==> exists kind :: !AllFine(luck(MonthIndex(year, month), kind), deleteAfter)
      ensures SameFrom(work.index, index, MonthIndex(year, month) + 1)
      ensures SettledSoFar(cal, W(), index, cutoff, luck, deleteAfter, raised || failed, first, MonthIndex(year, month) + 1)
    {
      ghost var now, i, indexNow := MonthIndex(year, month), |run| - 1, work.index;
      failed := ArchiveMonth(year, month, cutoff, deleteAfter, luck);
      SettledOneMore(cal, run, i, W(), index, indexNow, cutoff, luck, deleteAfter, raised, failed, first, now);
      SameFromNext(indexNow, work.index, index, now);
    }

    /** The month loop of main, from the month of the oldest message to that of the cutoff; one failed partition does not
        affect the others. */
    method ArchiveMonths(oldest: int, cutoff: int, deleteAfter: bool, luck: (int, Kind) -> Luck) returns (raised: bool)
      requires Valid() && worker == Idle && cutoff == this.cutoff
      modifies this`committed, this`work, this`files, this`worker, this`run
      ensures Valid() && worker == Idle && old(run) <= run
      ensures raised ==> SomethingFails(luck, deleteAfter, cal.month(oldest), cal.month(cutoff))
      ensures SettledSoFar(cal, W(), old(work).index, cutoff, luck, deleteAfter, raised, cal.month(oldest), cal.month(cutoff) + 1)
    {
      ghost var index := work.index;
      ghost var first, last := cal.month(oldest), cal.month(cutoff);
      var year, month := cal.month(oldest) / 12, cal.month(oldest) % 12 + 1;
      var endYear, endMonth := cal.month(cutoff) / 12, cal.month(cutoff) % 12 + 1;
      raised := false;
      MonthsAreInOrder(year, month, endYear, endMonth);
      while NotAfter(year, month, endYear, endMonth)
        invariant 1 <= month <= 12 && first <= MonthIndex(year, month)
        invariant NotAfter(year, month, endYear, endMonth) <==> MonthIndex(year, month) <= last
        invariant Valid() && worker == Idle && old(run) <= run
        invariant raised ==> SomethingFails(luck, deleteAfter, first, last)
        invariant SameFrom(work.index, index, MonthIndex(year, month))
        invariant SettledSoFar(cal, W(), index, cutoff, luck, deleteAfter, raised, first, MonthIndex(year, month))
        decreases last - MonthIndex(year, month)
      {
        var failed := OneMoreMonth(year, month, cutoff, deleteAfter, luck, index, raised, first);
        raised := raised || failed;
        MonthsAreInOrder(year, month, endYear, endMonth);
        if month == 12 {
          year, month := year + 1, 1;
        } else {
          month := month + 1;
        }
        MonthsAreInOrder(year, month, endYear, endMonth);
      }
    }

    /** SELECT MIN(timestamp) over both tables. */
    method MinTimestamp() returns (mt: Option<int>)
      ensures mt.None? <==> work.hot == {}
      ensures mt.Some? ==> (exists m :: m in work.hot && m.timestamp == mt.value) && forall m :: m in work.hot ==> mt.value <= m.timestamp
    {
      mt := None;
      var rest := work.hot;
      while rest != {}
        invariant rest <= work.hot
        invariant mt.None? <==> rest == work.hot
        invariant mt.Some? ==> (exists m :: m in work.hot && m.timestamp == mt.value)
        invariant mt.Some? ==> forall m :: m in work.hot && m !in rest ==> mt.value <= m.timestamp
      {
        var m :| m in rest;
        mt := if mt.None? || m.timestamp < mt.value then Some(m.timestamp) else mt;
        rest := rest - {m};
      }
    }

    /** pymysql.connect: a connection starts from what is committed. */
    method Open(cutoff: int)
      requires Valid() && worker == Off
      modifies this`work, this`worker, this`cutoff, this`run
      ensures Valid() && worker == Idle && work == committed && this.cutoff == cutoff && old(run) <= run
    {
      work := committed;
      worker := Idle;
      this.cutoff := cutoff;
      Took(Connect(cutoff));
    }

    /** finally: conn.close(), which rolls back what is pending. */
    method Close()
      requires Valid() && worker == Idle
      modifies this`work, this`worker, this`run
      ensures Valid() && worker == Off && work == committed && old(run) <= run
    {
      work := committed;
      worker := Off;
      Took(Die);
    }

    /** The try block of main. A minimum of 0 reads like no message at all. */
    method ArchiveOld(cutoff: int, deleteAfter: bool, luck: (int, Kind) -> Luck) returns (raised: bool, mt: Option<int>)
      requires Valid() && worker == Idle && committed == work && cutoff == this.cutoff
      modifies this`committed, this`work, this`files, this`worker, this`run
      ensures Valid() && worker == Idle && old(run) <= run
      ensures mt.None? <==> old(work).hot == {}
      ensures mt.Some? ==> (exists m :: m in old(work).hot && m.timestamp == mt.value) && forall m :: m in old(work).hot ==> mt.value <= m.timestamp
      ensures raised ==> mt.Some? && SomethingFails(luck, deleteAfter, cal.month(mt.value), cal.month(cutoff))
      ensures mt == None || mt == Some(0) ==> W() == old(W()) && !raised
      ensures mt.Some? && mt != Some(0) ==>
        SettledSoFar(cal, W(), old(work).index, cutoff, luck, deleteAfter, raised, cal.month(mt.value), cal.month(cutoff) + 1)
    {
      raised := false;
      mt := MinTimestamp();
      if mt != None && mt != Some(0) {
        raised := ArchiveMonths(mt.value, cutoff, deleteAfter, luck);
      }
    }

    /**
     * main. A message older than the cutoff is archived afterwards if its own partition met no failure, whatever failed
     * elsewhere; in a month that an earlier run had listed, exactly if it was archived before.
     */
    method ArchiveAll(cutoff: int, deleteAfter: bool, luck: (int, Kind) -> Luck) returns (raised: bool, mt: Option<int>)
      requires Valid() && worker == Off
      modifies this`committed, this`work, this`files, this`worker, this`cutoff, this`run
      ensures Valid() && worker == Off && old(run) <= run && work == committed
      ensures mt.None? <==> old(committed).hot == {}
      ensures mt.Some? ==> (exists m :: m in old(committed).hot && m.timestamp == mt.value) && forall m :: m in old(committed).hot ==> mt.value <= m.timestamp
      ensures raised ==> mt.Some? && SomethingFails(luck, deleteAfter, cal.month(mt.value), cal.month(cutoff))
      ensures mt == None || mt == Some(0) ==> committed == old(committed) && files == old(files) && !raised
      ensures mt != Some(0) ==> Fates(cal, old(W()), W(), cutoff, luck, deleteAfter, raised)
    {
      Open(cutoff);
      ghost var i := |run| - 1;
      raised, mt := ArchiveOld(cutoff, deleteAfter, luck);
      ghost var j := |run| - 1;
      Close();
      if mt != Some(0) {
        AllFates(cal, old(W()), run, i, j, W(), mt, cutoff, luck, deleteAfter, raised);
      }
    }
  }
}
