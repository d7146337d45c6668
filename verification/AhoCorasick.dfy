/** Multi-pattern matching as in src/moderation/AhoCorasick.h: trie, failure links, scan. */
module AhoCorasick {
  import opened Bytes
  import opened LongestSuffix
  import opened Pigeonhole
  import opened Automaton

  class AhoCorasick {
    var nodes: seq<Node>
    ghost var shape: Shape
    ghost var dict: seq<Entry>
    ghost var built: bool

    ghost predicate Valid()
      reads this
    {
      if built then Ready(nodes, shape, dict) else Growing(nodes, shape, dict)
    }

    constructor ()
      ensures Valid() && !built && dict == []
    {
      nodes, shape, dict, built := [EMPTY_NODE], Shape([[]], map[[] := 0], [0]), [], false;
    }

    /** The child of cur for byte c, created if missing. */
    method Descend(cur: nat, c: Byte) returns (next: nat)
      requires Valid() && !built && cur < |shape.path|
      modifies this`nodes, this`shape
      ensures Valid()
      ensures next < |shape.path| && shape.path[next] == old(shape).path[cur] + [c]
      ensures if c in old(nodes)[cur].children then nodes == old(nodes) && shape == old(shape) else nodes == Grown(old(nodes), cur, c)
    {
      if c !in nodes[cur].children {
        GrowKeeps(nodes, shape, dict, cur, c);
        next := |nodes|;
        nodes, shape := Grown(nodes, cur, c), GrownShape(shape, cur, c);
      } else {
        EdgePath(nodes, shape, cur, c);
        next := nodes[cur].children[c];
      }
    }

    /** addWord: walks down from the root, creating missing nodes, and records the entry. */
    method AddWord(word: seq<Byte>, category: string)
      requires Valid() && !built
      modifies this
      ensures Valid() && !built
      ensures dict == if word == [] then old(dict) else old(dict) + [Entry(word, category)]
    {
      if word == [] { return; }
      var cur: nat := 0;
      for i := 0 to |word|
        invariant Valid() && !built && dict == old(dict)
        invariant cur < |shape.path| && shape.path[cur] == word[..i]
      {
        cur := Descend(cur, word[i]);
        assert word[..i + 1] == word[..i] + [word[i]];
      }
      assert word[..|word|] == word;
      var e := Entry(word, category);
      RecordKeeps(nodes, shape, dict, cur, e);
      nodes, dict := WithWord(nodes, cur, e), dict + [e];
    }

    /** Follows failure links from start until c can be read or the root is reached. */
    method FollowFails(start: nat, c: Byte) returns (f: nat, ghost hops: nat)
      requires Trie(nodes, shape) && start < |nodes|
      requires forall n {:trigger FailOk(nodes, shape, n)} ::
                 0 < n < |nodes| && |shape.path[n]| <= |shape.path[start]| ==> FailOk(nodes, shape, n)
      ensures f < |nodes| && (f == 0 || c in nodes[f].children)
      ensures Longest(shape.index.Keys, shape.path[f] + [c]) == Longest(shape.index.Keys, shape.path[start] + [c])
      ensures hops + |shape.path[f]| <= |shape.path[start]|
    {
      f, hops := start, 0;
      while f != 0 && c !in nodes[f].children
        invariant f < |nodes| && hops + |shape.path[f]| <= |shape.path[start]|
        invariant Longest(shape.index.Keys, shape.path[f] + [c]) == Longest(shape.index.Keys, shape.path[start] + [c])
        decreases |shape.path[f]|
      {
        FollowFail(nodes, shape, f, c);
        FailIsShallower(nodes, shape, f);
        f, hops := nodes[f].fail, hops + 1;
      }
    }

    /** The failure link for the child of cur by byte c: the node of the longest path inside the child's. */
    method FailOf(cur: nat, c: Byte) returns (fail: nat)
      requires Trie(nodes, shape) && 0 < cur < |nodes| && c in nodes[cur].children
      requires forall n {:trigger FailOk(nodes, shape, n)} ::
                 0 < n < |nodes| && |shape.path[n]| <= |shape.path[cur]| ==> FailOk(nodes, shape, n)
      ensures fail < |nodes| && shape.path[fail] == Longest(shape.index.Keys, (shape.path[cur] + [c])[1..])
      ensures |shape.path[fail]| <= |shape.path[cur]|
    {
      assert FailOk(nodes, shape, cur);
      FailIsShallower(nodes, shape, cur);
      var f, _ := FollowFails(nodes[cur].fail, c);
      FailTarget(nodes, shape, cur, c, f);
      fail := 0;
      if c in nodes[f].children {
        if nodes[f].children[c] != nodes[cur].children[c] {
          fail := nodes[f].children[c];
        }
      }
    }

    /** One child of the node just dequeued: link it, hand it the inherited words. */
    method LinkTo(cur: nat, c: Byte, ghost order: seq<nat>, ghost h: nat, ghost rem: set<Byte>) returns (child: nat)
      requires Building(nodes, shape, dict, order) && 0 < cur < |nodes| && c in nodes[cur].children && c in rem
      requires 0 < h <= |order| && order[h - 1] == cur
      requires Frontier(shape, order, h, cur, rem) && InDepthOrder(shape, order, cur)
      modifies this`nodes
      ensures SameEdges(old(nodes), nodes)
      ensures Building(nodes, shape, dict, order + [child])
      ensures Frontier(shape, order + [child], h, cur, rem - {c}) && InDepthOrder(shape, order + [child], cur)
    {
      child := nodes[cur].children[c];
      ExpandStep(nodes, shape, order, h, cur, rem, c);
      EdgePath(nodes, shape, cur, c);
      forall n | 0 < n < |nodes| && |shape.path[n]| <= |shape.path[cur]| ensures FailOk(nodes, shape, n) {
        assert n in order && Final(nodes, shape, dict, n);
      }
      var fail := FailOf(cur, c);
      LinkChild(nodes, shape, dict, order, child, fail);
      nodes := WithFail(nodes, child, fail);
    }

    /** One child of the root: its failure link is the root. */
    method SeedOne(c: Byte, ghost q: seq<nat>, ghost rem: set<Byte>) returns (child: nat)
      requires Building(nodes, shape, dict, q) && c in nodes[0].children && c in rem
      requires Frontier(shape, q, 0, 0, rem) && InDepthOrder(shape, q, 0)
      modifies this`nodes
      ensures SameEdges(old(nodes), nodes)
      ensures Building(nodes, shape, dict, q + [child])
      ensures Frontier(shape, q + [child], 0, 0, rem - {c}) && InDepthOrder(shape, q + [child], 0)
    {
      child := nodes[0].children[c];
      EdgePath(nodes, shape, 0, c);
      FrontierPush(nodes, shape, q, 0, 0, rem, c);
      DepthPush(shape, q, 0, child);
      assert shape.path[child][1..] == [];
      LinkChild(nodes, shape, dict, q, child, 0);
      nodes := WithFail(nodes, child, 0);
    }

    /** The children of the root start the queue, with the root as their failure link. */
    method Seed() returns (q: seq<nat>)
      requires Building(nodes, shape, dict, [])
      modifies this`nodes
      ensures Building(nodes, shape, dict, q)
      ensures Frontier(shape, q, 0, 0, {}) && InDepthOrder(shape, q, 0)
    {
      q := [];
      FrontierStart(nodes, shape);
      var rem := nodes[0].children.Keys;
      while rem != {}
        invariant Building(nodes, shape, dict, q) && SameEdges(old(nodes), nodes) && rem <= nodes[0].children.Keys
        invariant Frontier(shape, q, 0, 0, rem) && InDepthOrder(shape, q, 0)
      {
        var c :| c in rem;
        var child := SeedOne(c, q, rem);
        q, rem := q + [child], rem - {c};
      }
    }

    /** Links and enqueues all children of the node dequeued last, in any order. */
    method Expand(cur: nat, q0: seq<nat>, ghost order0: seq<nat>, ghost h: nat) returns (q: seq<nat>, ghost order: seq<nat>)
      requires Building(nodes, shape, dict, order0)
      requires 0 < cur < |nodes| && 0 < h <= |order0| && order0[h - 1] == cur && q0 == order0[h..]
      requires Frontier(shape, order0, h, cur, nodes[cur].children.Keys) && InDepthOrder(shape, order0, cur)
      modifies this`nodes
      ensures Building(nodes, shape, dict, order) && SameEdges(old(nodes), nodes)
      ensures h <= |order| && order[h - 1] == cur && q == order[h..]
      ensures Frontier(shape, order, h, cur, {}) && InDepthOrder(shape, order, cur)
    {
      q, order := q0, order0;
      var rem := nodes[cur].children.Keys;
      while rem != {}
        invariant Building(nodes, shape, dict, order) && SameEdges(old(nodes), nodes)
        invariant h <= |order| && order[h - 1] == cur && q == order[h..] && rem <= nodes[cur].children.Keys
        invariant Frontier(shape, order, h, cur, rem) && InDepthOrder(shape, order, cur)
      {
        var c :| c in rem;
        var child := LinkTo(cur, c, order, h, rem);
        assert (order + [child])[h..] == order[h..] + [child];
        q, order, rem := q + [child], order + [child], rem - {c};
      }
    }

    /** build: breadth-first over the trie; every node but the root is enqueued exactly once. */
    method Build() returns (ghost order: seq<nat>)
      requires Valid() && !built
      modifies this
      ensures Valid() && built && dict == old(dict)
      ensures NoDuplicates(order) && forall n :: n in order <==> 0 < n < |nodes|
    {
      assert Owns(nodes, shape, dict, 0);
      RootLists(nodes[0].words, dict, shape.index.Keys);
      var q := Seed();
      order := q;
      ghost var h: nat, last: nat := 0, 0;
      while q != []
        invariant Building(nodes, shape, dict, order) && !built && dict == old(dict)
        invariant h <= |order| && q == order[h..] && last < |nodes|
        invariant last == if h == 0 then 0 else order[h - 1]
        invariant Frontier(shape, order, h, last, {}) && InDepthOrder(shape, order, last)
        decreases |nodes| - h
      {
        FrontierPop(nodes, shape, order, h, last);
        var cur := q[0];
        h, last := h + 1, cur;
        q, order := Expand(cur, q[1..], order, h);
        AtMost(order, |nodes|);
      }
      BuiltIsReady(nodes, shape, dict, order, last);
      built := true;
    }

    /** search: all occurrences of all entries, in the order in which they end, after following at most one failure link per byte read. */
    method Search(text: seq<Byte>) returns (result: seq<Match>, ghost hops: nat)
      requires Valid() && built
      ensures AllOccurrences(dict, text, result)
      ensures forall j, k :: 0 <= j < k < |result| ==> End(result[j]) <= End(result[k])
      ensures hops <= |text|
    {
      result, hops := [], 0;
      var cur: nat := 0;
      for i := 0 to |text|
        invariant cur < |nodes| && shape.path[cur] == Longest(shape.index.Keys, text[..i])
        invariant hops + |shape.path[cur]| <= i
        invariant FoundUpTo(dict, text, i, result)
        invariant forall k :: 0 <= k < |result| ==> End(result[k]) <= i
        invariant forall j, k :: 0 <= j < k < |result| ==> End(result[j]) <= End(result[k])
      {
        var next, h := Step(cur, text[..i], text[i]);
        assert text[..i] + [text[i]] == text[..i + 1];
        cur, hops := next, hops + h;
        result := Report(cur, text, i, result);
      }
      assert text[..|text|] == text;
    }

    /** One byte of the scan. */
    method Step(cur: nat, ghost seen: seq<Byte>, c: Byte) returns (next: nat, ghost hops: nat)
      requires Valid() && built && cur < |nodes|
      requires shape.path[cur] == Longest(shape.index.Keys, seen)
      ensures next < |nodes| && shape.path[next] == Longest(shape.index.Keys, seen + [c])
      ensures hops + |shape.path[next]| <= |shape.path[cur]| + 1
    {
      forall n | 0 < n < |nodes| ensures FailOk(nodes, shape, n) {
        assert Final(nodes, shape, dict, n);
      }
      var f, h := FollowFails(cur, c);
      hops := h;
      TriePrefixClosed(shape);
      LongestAfter(shape.index.Keys, seen, c);
      WalkEnds(nodes, shape, f, c);
      if c in nodes[f].children {
        EdgePath(nodes, shape, f, c);
        next := nodes[f].children[c];
      } else {
        next := f;
      }
    }

    /** Emits one match per word listed at cur; the subtraction never underflows. */
    method Report(cur: nat, text: seq<Byte>, i: nat, found: seq<Match>) returns (result: seq<Match>)
      requires Valid() && built && cur < |nodes| && i < |text|
      requires shape.path[cur] == Longest(shape.index.Keys, text[..i + 1])
      requires FoundUpTo(dict, text, i, found)
      ensures FoundUpTo(dict, text, i + 1, result)
      ensures found <= result && forall k :: |found| <= k < |result| ==> End(result[k]) == i + 1
    {
      var words := nodes[cur].words;
      assert SuffixWords(words, dict, shape.path[cur]) by {
        if cur == 0 {
          RootLists([], dict, shape.index.Keys);
        } else {
          assert Final(nodes, shape, dict, cur);
        }
      }
      forall e: Entry
        ensures multiset(words)[e] == if IsSuffix(e.word, text[..i + 1]) then multiset(dict)[e] else 0
        ensures e in words ==> 0 < |e.word| <= i + 1
      {
        WordsEndHere(words, dict, shape.index.Keys, text[..i + 1], e);
      }
      result := Emit(words, i, found);
      FoundOneMore(dict, text, i, found, words, result);
    }

    static method Emit(words: seq<Entry>, i: nat, found: seq<Match>) returns (result: seq<Match>)
      requires forall e :: e in words ==> 0 < |e.word| <= i + 1
      ensures forall m :: multiset(result)[m] == multiset(found)[m] + ReportedAt(words, i + 1, m)
      ensures found <= result && forall k :: |found| <= k < |result| ==> End(result[k]) == i + 1
    {
      result := found;
      ghost var end := i + 1;
      assert words[..0] == [];
      for k := 0 to |words|
        invariant forall m :: multiset(result)[m] == multiset(found)[m] + ReportedAt(words[..k], end, m)
        invariant found <= result && forall k :: |found| <= k < |result| ==> End(result[k]) == i + 1
      {
        var w := words[k];
        assert w in words;
        var m := Match(i + 1 - |w.word|, |w.word|, w.word, w.category);
        assert words[..k + 1] == words[..k] + [w];
        forall x ensures multiset(result + [m])[x] == multiset(found)[x] + ReportedAt(words[..k + 1], end, x) {
          ReportedOneMore(words[..k], w, end, x);
        }
        result := result + [m];
      }
      assert words[..|words|] == words;
    }
  }
}
