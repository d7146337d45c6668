/** The LRU cache of tools/archive_worker/query_server.py over the files of module Archive. */
module PartitionCache {
  import opened Archive
  import opened Options
  import opened Pigeonhole

  /** CACHE_LIMIT */
  const LIMIT: nat := 8

  // ----- sequences read from their end -----

  function Init(s: seq<Part>): seq<Part>
    requires s != []
  {
    s[..|s| - 1]
  }

  function Last(s: seq<Part>): Part
    requires s != []
  {
    s[|s| - 1]
  }

  function Minus(s: seq<Part>, p: Part): seq<Part> {
    if s == [] then [] else if Last(s) == p then Minus(Init(s), p) else Minus(Init(s), p) + [Last(s)]
  }

  /** The n last elements, or all of them. */
  function Newest(s: seq<Part>, n: nat): seq<Part> {
    if s == [] || n == 0 then [] else Newest(Init(s), n - 1) + [Last(s)]
  }

  /** The elements after p. */
  function After(s: seq<Part>, p: Part): set<Part> {
    if s == [] || Last(s) == p then {} else After(Init(s), p) + {Last(s)}
  }

  /** The partitions used, each once, ordered by last use. */
  function Recency(log: seq<Part>): seq<Part> {
    if log == [] then [] else Minus(Recency(Init(log)), Last(log)) + [Last(log)]
  }

  /** The partitions used after the last use of p. */
  function Since(log: seq<Part>, p: Part): set<Part> {
    if log == [] || Last(log) == p then {} else Since(Init(log), p) + {Last(log)}
  }

  lemma InitSnoc(s: seq<Part>, p: Part)
    ensures Init(s + [p]) == s && Last(s + [p]) == p
  {
  }

  lemma {:induction false} MinusIsSet(s: seq<Part>, p: Part)
    ensures forall q :: q in Minus(s, p) <==> q in s && q != p
    ensures NoDuplicates(s) ==> NoDuplicates(Minus(s, p))
  {
    if s != [] {
      var i, x := Init(s), Last(s);
      MinusIsSet(i, p);
      assert s == i + [x];
      NoDuplicatesSnoc(i, x);
      NoDuplicatesSnoc(Minus(i, p), x);
    }
  }

  lemma {:induction false} MinusAbsent(s: seq<Part>, p: Part)
    requires p !in s
    ensures Minus(s, p) == s
  {
    if s != [] {
      MinusAbsent(Init(s), p);
      assert s == Init(s) + [Last(s)];
    }
  }

  lemma RecencySnoc(log: seq<Part>, p: Part)
    ensures Recency(log + [p]) == Minus(Recency(log), p) + [p]
  {
    InitSnoc(log, p);
  }

  lemma NewestSnoc(s: seq<Part>, n: nat, p: Part)
    requires n > 0
    ensures Newest(s + [p], n) == Newest(s, n - 1) + [p]
  {
    InitSnoc(s, p);
  }

  lemma MinusSnoc(s: seq<Part>, x: Part, p: Part)
    ensures Minus(s + [x], p) == if x == p then Minus(s, p) else Minus(s, p) + [x]
  {
    InitSnoc(s, x);
  }

  /** Recency keeps exactly the partitions of the log, each once. */
  ghost predicate Orders(log: seq<Part>) {
    NoDuplicates(Recency(log)) && forall q :: q in Recency(log) <==> q in log
  }

  lemma OrdersSnoc(log: seq<Part>, p: Part)
    requires Orders(log)
    ensures Orders(log + [p])
  {
    RecencySnoc(log, p);
    MinusIsSet(Recency(log), p);
    NoDuplicatesSnoc(Minus(Recency(log), p), p);
  }

  lemma {:induction false} RecencyIsTheLog(log: seq<Part>)
    ensures Orders(log)
  {
    if log != [] {
      RecencyIsTheLog(Init(log));
      OrdersSnoc(Init(log), Last(log));
      assert log == Init(log) + [Last(log)];
    }
  }

  // ----- how the cache moves -----

  lemma {:induction false} NewestAreElements(s: seq<Part>, n: nat)
    ensures |Newest(s, n)| <= n
    ensures forall q :: q in Newest(s, n) ==> q in s
  {
    if s != [] && n > 0 {
      NewestAreElements(Init(s), n - 1);
    }
  }

  lemma HitAtTheEnd(s: seq<Part>, n: nat, p: Part)
    requires p !in s && n > 0
    ensures Newest(Minus(s + [p], p), n - 1) == Minus(Newest(s + [p], n), p)
  {
    var t := Newest(s, n - 1);
    assert p !in t by {
      NewestAreElements(s, n - 1);
    }
    assert Minus(s + [p], p) == s by {
      MinusSnoc(s, p, p);
      MinusAbsent(s, p);
    }
    assert Minus(t + [p], p) == t by {
      MinusSnoc(t, p, p);
      MinusAbsent(t, p);
    }
    NewestSnoc(s, n, p);
  }

  lemma HitBefore(s: seq<Part>, n: nat, x: Part, p: Part)
    requires x != p && n > 1 && Newest(Minus(s, p), n - 2) == Minus(Newest(s, n - 1), p)
    ensures Newest(Minus(s + [x], p), n - 1) == Minus(Newest(s + [x], n), p)
  {
    MinusSnoc(s, x, p);
    NewestSnoc(Minus(s, p), n - 1, x);
    NewestSnoc(s, n, x);
    MinusSnoc(Newest(s, n - 1), x, p);
  }

  lemma {:induction false} HitMoves(s: seq<Part>, n: nat, p: Part)
    requires NoDuplicates(s) && p in Newest(s, n)
    ensures n > 0 && Newest(Minus(s, p), n - 1) == Minus(Newest(s, n), p)
  {
    var i, x := Init(s), Last(s);
    assert s == i + [x];
    if x == p {
      HitAtTheEnd(i, n, p);
    } else {
      HitMoves(i, n - 1, p);
      HitBefore(i, n, x, p);
    }
  }

  lemma {:induction false} MissKeeps(s: seq<Part>, n: nat, m: nat, p: Part)
    requires m <= n && p !in Newest(s, n)
    ensures Newest(Minus(s, p), m) == Newest(s, m)
  {
    if s != [] && m > 0 {
      assert Last(s) in Newest(s, n);
      MissKeeps(Init(s), n - 1, m - 1, p);
      InitSnoc(Minus(Init(s), p), Last(s));
    }
  }

  lemma {:induction false} OldestGoes(s: seq<Part>, n: nat)
    requires n > 0
    ensures var t := Newest(s, n); Newest(s, n - 1) == if |t| >= n then t[1..] else t
  {
    NewestAreElements(s, n);
    if s != [] && n > 1 {
      OldestGoes(Init(s), n - 1);
    }
  }

  lemma {:induction false} NewestStaysDistinct(s: seq<Part>, n: nat)
    requires NoDuplicates(s)
    ensures NoDuplicates(Newest(s, n))
  {
    if s != [] && n > 0 {
      var i, x := Init(s), Last(s);
      assert s == i + [x];
      NoDuplicatesSnoc(i, x);
      NewestStaysDistinct(i, n - 1);
      NewestAreElements(i, n - 1);
      NoDuplicatesSnoc(Newest(i, n - 1), x);
    }
  }

  lemma NewestIsDistinct(log: seq<Part>, n: nat)
    ensures NoDuplicates(Newest(Recency(log), n))
  {
    RecencyIsTheLog(log);
    NewestStaysDistinct(Recency(log), n);
  }

  lemma {:induction false} OldestIsSingle(s: seq<Part>)
    requires NoDuplicates(s) && s != []
    ensures forall q :: q in s[1..] <==> q in s && q != s[0]
  {
    if |s| > 1 {
      OldestIsSingle(Init(s));
      assert s[1..] == Init(s)[1..] + [Last(s)];
    }
  }

  // ----- least recently used -----

  lemma {:induction false} AfterMinus(s: seq<Part>, x: Part, p: Part)
    requires x != p
    ensures After(Minus(s, x), p) == After(s, p) - {x}
  {
    if s != [] {
      AfterMinus(Init(s), x, p);
      InitSnoc(Minus(Init(s), x), Last(s));
    }
  }

  /** What stands after a partition in recency order is what was used since. */
  lemma {:induction false} AfterIsSince(log: seq<Part>, p: Part)
    ensures After(Recency(log), p) == Since(log, p)
  {
    if log != [] {
      var r := Recency(Init(log));
      InitSnoc(Minus(r, Last(log)), Last(log));
      if Last(log) != p {
        AfterIsSince(Init(log), p);
        AfterMinus(r, Last(log), p);
      }
    }
  }

  lemma {:induction false} NewestByDistance(s: seq<Part>, n: nat, p: Part)
    requires NoDuplicates(s) && p in s
    ensures p in Newest(s, n) <==> |After(s, p)| < n
    ensures forall q :: q in After(s, p) ==> q in s
  {
    if Last(s) != p {
      NewestByDistance(Init(s), if n > 0 then n - 1 else 0, p);
      assert After(s, p) == After(Init(s), p) + {Last(s)};
    }
  }

  /** A partition is among the n newest exactly when it was used and fewer than n others were used since. */
  lemma LeastRecentlyUsed(log: seq<Part>, n: nat, p: Part)
    ensures p in Newest(Recency(log), n) <==> p in log && |Since(log, p)| < n
  {
    RecencyIsTheLog(log);
    NewestAreElements(Recency(log), n);
    if p in log {
      NewestByDistance(Recency(log), n, p);
      AfterIsSince(log, p);
    }
  }

  lemma NewestAreUsedLast(log: seq<Part>, n: nat)
    ensures var t := Newest(Recency(log), n); |t| <= n && forall p :: p in t <==> p in log && |Since(log, p)| < n
  {
    NewestAreElements(Recency(log), n);
    forall p ensures p in Newest(Recency(log), n) <==> p in log && |Since(log, p)| < n {
      LeastRecentlyUsed(log, n, p);
    }
  }

  /** The order after one more use, out of the order before it. */
  function Touched(order: seq<Part>, n: nat, p: Part): seq<Part>
    requires n > 0
  {
    if p in order then Minus(order, p) + [p]
    else (if |order| >= n then order[1..] else order) + [p]
  }

  lemma TouchedNewest(s: seq<Part>, n: nat, p: Part)
    requires n > 0 && NoDuplicates(s)
    ensures Newest(Minus(s, p) + [p], n) == Touched(Newest(s, n), n, p)
  {
    var t := Newest(s, n);
    assert Newest(Minus(s, p) + [p], n) == Newest(Minus(s, p), n - 1) + [p] by {
      NewestSnoc(Minus(s, p), n, p);
    }
    if p in t {
      HitMoves(s, n, p);
    } else {
      assert Newest(Minus(s, p), n - 1) == Newest(s, n - 1) by {
        MissKeeps(s, n, n - 1, p);
      }
      OldestGoes(s, n);
    }
  }

  lemma TouchedIsNewest(log: seq<Part>, n: nat, p: Part)
    requires n > 0
    ensures Newest(Recency(log + [p]), n) == Touched(Newest(Recency(log), n), n, p)
  {
    RecencySnoc(log, p);
    RecencyIsTheLog(log);
    TouchedNewest(Recency(log), n, p);
  }

  // ----- the cache -----

  ghost predicate Current(w: World, rows: map<Part, set<Msg>>) {
    forall p :: p in rows ==> Listed(w.committed.index, p) && p in w.files && w.files[p] == rows[p]
  }

  lemma FilledIsNewest(log: seq<Part>, n: nat, part: Part)
    requires n > 0 && part !in Newest(Recency(log), n)
    ensures var order := Newest(Recency(log), n);
            (if |order| >= n then order[1..] else order) + [part] == Newest(Recency(log + [part]), n)
  {
    TouchedIsNewest(log, n, part);
  }

  lemma Freshened(w: World, order: seq<Part>, rows: map<Part, set<Msg>>, part: Part, content: set<Msg>)
    requires (forall p :: p in order <==> p in rows) && Current(w, rows)
    requires Listed(w.committed.index, part) && part in w.files && content == w.files[part]
    ensures (forall p :: p in order + [part] <==> p in rows[part := content]) && Current(w, rows[part := content])
  {
  }

  class Cache {
    const limit: nat
    var order: seq<Part>
    var rows: map<Part, set<Msg>>
    ghost var log: seq<Part>
    ghost var seen: World

    /** The entries are the newest of the log, each with what its listed file held when last looked at. */
    ghost predicate Valid()
      reads this
    {
      && limit > 0 && order == Newest(Recency(log), limit)
      && (forall p :: p in order <==> p in rows)
      && Current(seen, rows)
    }

    constructor (w: World)
      ensures Valid() && limit == 8 && log == [] && seen == w
    {
      limit, order, rows, log, seen := LIMIT, [], map[], [], w;
    }

    /** What the index and the storage give for a partition right now. */
    method ReadPartition(part: Part, w: World, readable: bool) returns (r: Option<set<Msg>>)
      ensures r == if Listed(w.committed.index, part) && readable && part in w.files then Some(w.files[part]) else None
    {
      if !Listed(w.committed.index, part) {
        return None;
      }
      if !readable || part !in w.files {
        return None;
      }
      return Some(w.files[part]);
    }

    /** A hit: move_to_end. */
    method Hit(part: Part)
      requires Valid() && part in rows
      modifies this`order, this`log
      ensures Valid() && log == old(log) + [part]
    {
      TouchedIsNewest(log, limit, part);
      MinusIsSet(order, part);
      order := Minus(order, part) + [part];
      log := log + [part];
    }

    /** popitem(last=False) */
    method Evict()
      requires order != [] && NoDuplicates(order) && forall p :: p in order <==> p in rows
      modifies this`order, this`rows
      ensures order == old(order)[1..]
      ensures forall p :: p in order <==> p in rows
      ensures forall p :: p in rows ==> p in old(rows) && rows[p] == old(rows)[p]
    {
      OldestIsSingle(order);
      rows := map p | p in rows && p != order[0] :: rows[p];
      order := order[1..];
    }

    /** The oldest entry goes if the cache is full. */
    method MakeRoom()
      requires limit > 0 && NoDuplicates(order) && forall p :: p in order <==> p in rows
      modifies this`order, this`rows
      ensures order == if |old(order)| >= limit then old(order)[1..] else old(order)
      ensures forall p :: p in order <==> p in rows
      ensures forall w :: Current(w, old(rows)) ==> Current(w, rows)
    {
      if |order| >= limit {
        Evict();
      }
    }

    /** A miss: the entry goes in last. */
    method Fill(part: Part, content: set<Msg>)
      requires Valid() && part !in rows
      requires Listed(seen.committed.index, part) && part in seen.files && content == seen.files[part]
      modifies this`order, this`rows, this`log
      ensures Valid() && log == old(log) + [part]
    {
      NewestIsDistinct(log, limit);
      FilledIsNewest(log, limit, part);
      MakeRoom();
      Freshened(seen, order, rows, part, content);
      order, rows := order + [part], rows[part := content];
      log := log + [part];
    }

    /** Any run of the archiver may lie between the last call and this one; w is the world it led to. */
    method LoadPartition(part: Part, w: World, readable: bool, ghost cal: Calendar, ghost run: seq<World>) returns (r: Option<set<Msg>>)
      requires Valid() && Proper(cal) && Inv(cal, seen) && Leads(cal, seen, run, w)
      modifies this
      ensures Valid() && seen == w && Inv(cal, w)
      ensures r.Some? ==> Listed(w.committed.index, part) && part in w.files && r.value == w.files[part]
      ensures r.None? <==> part !in old(order) && !(Listed(w.committed.index, part) && readable)
      ensures log == if r.Some? then old(log) + [part] else old(log)
      ensures |order| <= limit && forall p :: p in order <==> p in log && |Since(log, p)| < limit
    {
      Later(w, cal, run);
      if part in rows {
        r := Some(rows[part]);
        Hit(part);
      } else {
        r := ReadPartition(part, w, readable);
        if r.Some? {
          Fill(part, r.value);
        } else {
          assert Listed(w.committed.index, part) ==> FileOk(cal, w, w.committed, part);
        }
      }
      NewestAreUsedLast(log, limit);
    }

    /** What was cached before a run of the archiver is still what the files hold after it. */
    ghost method Later(w: World, cal: Calendar, run: seq<World>)
      requires Valid() && Proper(cal) && Inv(cal, seen) && Leads(cal, seen, run, w)
      modifies this`seen
      ensures Valid() && seen == w && Inv(cal, w)
    {
      RunKeepsInv(cal, seen, run, w, |run| - 1);
      forall p | p in rows ensures Listed(w.committed.index, p) && p in w.files && w.files[p] == rows[p] {
        ListedFileIsForever(cal, seen, run, w, |run| - 1, p);
      }
      seen := w;
    }
  }
}
