/** Text moderation on top of the automaton, as in src/moderation/ContentModerationService.h. */
module Moderation {
  import opened AhoCorasick
  import opened Automaton
  import opened Bytes
  import opened Options

  datatype Verdict = Pass | Review | Block
  datatype Response = Response(result: Verdict, reason: string, matchedWords: seq<seq<Byte>>)
  datatype Row = Row(word: Option<seq<Byte>>, category: Option<string>, updatedAt: Option<int>)

  // ----- the decision by plain substring tests -----

  ghost predicate Contains(text: seq<Byte>, word: seq<Byte>) {
    exists start: nat :: OccursAt(word, text, start)
  }

  /** Some dictionary word of the category occurs in the text. */
  ghost predicate Hits(dict: seq<Entry>, text: seq<Byte>, category: string) {
    exists e :: e in dict && e.category == category && Contains(text, e.word)
  }

  ghost predicate Reported(matches: seq<Match>, category: string) {
    exists m :: m in matches && m.category == category
  }

  /** A category is reported by the scan exactly when the substring test hits it. */
  lemma ReportedIffHits(dict: seq<Entry>, text: seq<Byte>, matches: seq<Match>, category: string)
    requires AllOccurrences(dict, text, matches)
    ensures Reported(matches, category) <==> Hits(dict, text, category)
  {
    if Reported(matches, category) {
      var m :| m in matches && m.category == category;
      assert multiset(matches)[m] > 0;
      assert Entry(m.word, m.category) in dict && OccursAt(m.word, text, m.start);
    }
    if Hits(dict, text, category) {
      var e :| e in dict && e.category == category && Contains(text, e.word);
      var start: nat :| OccursAt(e.word, text, start);
      var m := Match(start, |e.word|, e.word, e.category);
      assert multiset(dict)[e] > 0 && Expected(dict, text, m) > 0;
      assert multiset(matches)[m] > 0;
    }
  }

  lemma NothingInEmptyText(dict: seq<Entry>, paths: set<seq<Byte>>)
    requires InTrie(dict, paths)
    ensures AllOccurrences(dict, [], [])
  {
  }

  function WordsOf(matches: seq<Match>): seq<seq<Byte>> {
    seq(|matches|, i requires 0 <= i < |matches| => matches[i].word)
  }

  /** The non-empty words of the usable rows, in table order. */
  function Dictionary(rows: seq<Row>): seq<Entry> {
    if rows == [] then []
    else
      var front, r := Dictionary(rows[..|rows| - 1]), rows[|rows| - 1];
      if r.word.Some? && r.category.Some? && r.word.value != []
      then front + [Entry(r.word.value, r.category.value)]
      else front
  }

  predicate Usable(r: Row) {
    r.word.Some? && r.category.Some?
  }

  /** The usable rows, empty words included. */
  function UsableCount(rows: seq<Row>): nat {
    if rows == [] then 0 else UsableCount(rows[..|rows| - 1]) + if Usable(rows[|rows| - 1]) then 1 else 0
  }

  /** v is the latest time of change of a usable row, 0 if there is none. */
  ghost predicate IsVersion(rows: seq<Row>, v: int) {
    && v >= 0 && (v > 0 ==> exists i :: 0 <= i < |rows| && Usable(rows[i]) && rows[i].updatedAt == Some(v))
    && forall i :: 0 <= i < |rows| && Usable(rows[i]) && rows[i].updatedAt.Some? ==> rows[i].updatedAt.value <= v
  }

  /** The version after one more row. */
  function Newer(r: Row, v: int): int {
    if Usable(r) && r.updatedAt.Some? && r.updatedAt.value > v then r.updatedAt.value else v
  }

  lemma OneMoreRow(rows: seq<Row>, r: Row, v: int)
    requires IsVersion(rows, v)
    ensures IsVersion(rows + [r], Newer(r, v))
    ensures UsableCount(rows + [r]) == UsableCount(rows) + if Usable(r) then 1 else 0
    ensures Dictionary(rows + [r]) ==
            Dictionary(rows) + if Usable(r) && r.word.value != [] then [Entry(r.word.value, r.category.value)] else []
  {
    var all, v' := rows + [r], Newer(r, v);
    assert all[..|rows|] == rows;
    assert forall i :: 0 <= i < |rows| ==> all[i] == rows[i];
    assert all[|rows|] == r;
    if v' == v > 0 {
      var i :| 0 <= i < |rows| && Usable(rows[i]) && rows[i].updatedAt == Some(v);
      assert Usable(all[i]) && all[i].updatedAt == Some(v);
    }
  }

  /** The row puts this entry into the dictionary. */
  predicate Yields(r: Row, e: Entry) {
    r.word == Some(e.word) && r.category == Some(e.category) && e.word != []
  }

  ghost function RowsFor(rows: seq<Row>, e: Entry): set<int> {
    set i | 0 <= i < |rows| && Yields(rows[i], e)
  }

  ghost function UsableRows(rows: seq<Row>): set<int> {
    set i | 0 <= i < |rows| && rows[i].word.Some? && rows[i].category.Some?
  }

  lemma OneMoreRowFor(rows: seq<Row>, r: Row, e: Entry)
    ensures |RowsFor(rows + [r], e)| == |RowsFor(rows, e)| + if Yields(r, e) then 1 else 0
  {
    var n, all := |rows|, rows + [r];
    forall i ensures i in RowsFor(all, e) <==> i in RowsFor(rows, e) || (i == n && Yields(r, e)) {
      assert 0 <= i < n ==> all[i] == rows[i];
      assert all[n] == r;
    }
    OneMore(RowsFor(rows, e), RowsFor(all, e), n, Yields(r, e));
  }

  lemma OneMoreUsable(rows: seq<Row>, r: Row)
    ensures |UsableRows(rows + [r])| == |UsableRows(rows)| + if Usable(r) then 1 else 0
  {
    var n, all := |rows|, rows + [r];
    forall i ensures i in UsableRows(all) <==> i in UsableRows(rows) || (i == n && Usable(r)) {
      assert 0 <= i < n ==> all[i] == rows[i];
      assert all[n] == r;
    }
    OneMore(UsableRows(rows), UsableRows(all), n, Usable(r));
  }

  lemma OneMore(s: set<int>, s': set<int>, x: int, more: bool)
    requires x !in s && forall i :: i in s' <==> i in s || (i == x && more)
    ensures |s'| == |s| + if more then 1 else 0
  {
    var t := if more then s + {x} else s;
    forall i ensures i in s' <==> i in t {
    }
    assert s' == t;
  }

  lemma EntryOf(rows: seq<Row>, r: Row, e: Entry)
    ensures multiset(Dictionary(rows + [r]))[e] == multiset(Dictionary(rows))[e] + if Yields(r, e) then 1 else 0
  {
    assert (rows + [r])[..|rows|] == rows;
    var more := if Usable(r) && r.word.value != [] then [Entry(r.word.value, r.category.value)] else [];
    assert Dictionary(rows + [r]) == Dictionary(rows) + more;
  }

  /** An entry is in the dictionary once for each row that has this non-empty word and this category. */
  lemma {:induction false} DictionaryIs(rows: seq<Row>, e: Entry)
    ensures multiset(Dictionary(rows))[e] == |RowsFor(rows, e)|
    ensures UsableCount(rows) == |UsableRows(rows)|
  {
    if rows != [] {
      var front, r := rows[..|rows| - 1], rows[|rows| - 1];
      assert rows == front + [r];
      DictionaryIs(front, e);
      OneMoreRowFor(front, r, e);
      OneMoreUsable(front, r);
      EntryOf(front, r, e);
    }
  }

  /** After a reload a text is blocked, or to be reviewed, exactly if a word of some row of that category occurs in it. */
  lemma HitsByRow(rows: seq<Row>, text: seq<Byte>, category: string)
    ensures (exists e :: e in Dictionary(rows) && e.category == category && Contains(text, e.word)) <==>
            exists i :: 0 <= i < |rows| && HasWordIn(rows[i], text, category)
  {
    if e :| e in Dictionary(rows) && e.category == category && Contains(text, e.word) {
      DictionaryIs(rows, e);
      assert multiset(Dictionary(rows))[e] > 0;
      var i :| i in RowsFor(rows, e);
      assert HasWordIn(rows[i], text, category);
    }
    if i :| 0 <= i < |rows| && HasWordIn(rows[i], text, category) {
      var e := Entry(rows[i].word.value, category);
      DictionaryIs(rows, e);
      assert i in RowsFor(rows, e);
      assert multiset(Dictionary(rows))[e] > 0;
    }
  }

  ghost predicate HasWordIn(r: Row, text: seq<Byte>, category: string) {
    r.category == Some(category) && r.word.Some? && r.word.value != [] && Contains(text, r.word.value)
  }

  class ContentModerationService {
    var current: AhoCorasick?
    var lastVersion: int
    var wordCount: nat

    ghost predicate Valid()
      reads this, current
    {
      current != null ==> current.Valid() && current.built
    }

    constructor ()
      ensures current == null && lastVersion == 0 && wordCount == 0
    {
      current, lastVersion, wordCount := null, 0, 0;
    }

    /** reload: a fresh automaton is filled and built before it replaces the current one;
        a failed query leaves the current one in place. */
    method Reload(rows: Option<seq<Row>>)
      requires Valid()
      modifies this
      ensures Valid()
      ensures rows.None? ==> current == old(current) && lastVersion == old(lastVersion) && wordCount == old(wordCount)
      ensures rows.Some? ==> current != null && fresh(current) && current.dict == Dictionary(rows.value)
      ensures rows.Some? ==> wordCount == UsableCount(rows.value) && IsVersion(rows.value, lastVersion)
      ensures rows.Some? ==> wordCount == |UsableRows(rows.value)|
      ensures rows.Some? ==> forall e :: multiset(current.dict)[e] == |RowsFor(rows.value, e)|
    {
      if rows.None? { return; }
      var next := new AhoCorasick();
      var maxVer: int, count: nat := 0, 0;
      for i := 0 to |rows.value|
        invariant next.Valid() && !next.built && fresh(next)
        invariant next.dict == Dictionary(rows.value[..i])
        invariant count == UsableCount(rows.value[..i]) && IsVersion(rows.value[..i], maxVer)
      {
        var r := rows.value[i];
        OneMoreRow(rows.value[..i], r, maxVer);
        assert rows.value[..i + 1] == rows.value[..i] + [r];
        if r.word.Some? && r.category.Some? {
          next.AddWord(r.word.value, r.category.value);
          count := count + 1;
          if r.updatedAt.Some? && r.updatedAt.value > maxVer {
            maxVer := r.updatedAt.value;
          }
        }
      }
      assert rows.value[..|rows.value|] == rows.value;
      var _ := next.Build();
      forall e ensures multiset(next.dict)[e] == |RowsFor(rows.value, e)| && count == |UsableRows(rows.value)| {
        DictionaryIs(rows.value, e);
      }
      DictionaryIs(rows.value, Entry([0], ""));
      current, lastVersion, wordCount := next, maxVer, count;
    }

    /** checkText decides as the substring test over all words would, and lists a word per occurrence. */
    method CheckText(text: seq<Byte>) returns (r: Response, ghost matches: seq<Match>)
      requires Valid()
      ensures current == null ==> r == Response(Pass, "", [])
      ensures current != null ==>
                && (r.result == Block <==> exists e :: e in current.dict && e.category == "ban" && Contains(text, e.word))
                && (r.result == Review <==> r.result != Block && exists e :: e in current.dict && e.category == "review" && Contains(text, e.word))
                && r.reason == (match r.result case Block => "contains banned word" case Review => "needs human review" case Pass => "")
                && AllOccurrences(current.dict, text, matches)
                && r.matchedWords == WordsOf(matches)
    {
      r, matches := Response(Pass, "", []), [];
      if current == null { return; }
      if text == [] {
        NothingInEmptyText(current.dict, current.shape.index.Keys);
        ReportedIffHits(current.dict, text, [], "ban");
        ReportedIffHits(current.dict, text, [], "review");
        return;
      }
      var found, _ := current.Search(text);
      matches := found;
      ReportedIffHits(current.dict, text, found, "ban");
      ReportedIffHits(current.dict, text, found, "review");
      if found == [] { return; }
      var hasBan, hasReview, words := false, false, [];
      for i := 0 to |found|
        invariant words == WordsOf(found[..i])
        invariant hasBan <==> Reported(found[..i], "ban")
        invariant hasReview <==> Reported(found[..i], "review")
      {
        var m := found[i];
        assert found[..i + 1] == found[..i] + [m];
        words := words + [m.word];
        if m.category == "ban" {
          hasBan := true;
        } else if m.category == "review" {
          hasReview := true;
        }
        ReportedSnoc(found[..i], m, "ban");
        ReportedSnoc(found[..i], m, "review");
      }
      assert found[..|found|] == found;
      r := r.(matchedWords := words);
      if hasBan {
        r := r.(result := Block, reason := "contains banned word");
      } else if hasReview {
        r := r.(result := Review, reason := "needs human review");
      }
    }
  }

  lemma ReportedSnoc(matches: seq<Match>, m: Match, category: string)
    ensures Reported(matches + [m], category) <==> Reported(matches, category) || m.category == category
  {
    if m.category == category {
      assert m in matches + [m];
    }
    if Reported(matches, category) {
      var x :| x in matches && x.category == category;
      assert x in matches + [m];
    }
  }
}
