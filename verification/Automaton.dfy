/** What src/moderation/AhoCorasick.h has to find, and what keeps its trie, failure links and word lists right. */
module Automaton {
  import opened Bytes
  import opened LongestSuffix
  import opened Pigeonhole

  datatype Entry = Entry(word: seq<Byte>, category: string)
  datatype Match = Match(start: nat, length: nat, word: seq<Byte>, category: string)
  datatype Node = Node(children: map<Byte, nat>, fail: nat, words: seq<Entry>)

  const EMPTY_NODE := Node(map[], 0, [])

  // ----- what a scan has to find -----

  ghost predicate OccursAt(word: seq<Byte>, text: seq<Byte>, start: nat) {
    start + |word| <= |text| && text[start..start + |word|] == word
  }

  function End(m: Match): nat {
    m.start + m.length
  }

  /** How often match m belongs in the result: once for each time its word was added, if it is a real occurrence. */
  ghost function Expected(dict: seq<Entry>, text: seq<Byte>, m: Match): nat {
    if m.length == |m.word| && OccursAt(m.word, text, m.start)
    then multiset(dict)[Entry(m.word, m.category)]
    else 0
  }

  /** The result is, as a multiset, exactly every occurrence of every dictionary entry. */
  ghost predicate AllOccurrences(dict: seq<Entry>, text: seq<Byte>, result: seq<Match>) {
    forall m :: multiset(result)[m] == Expected(dict, text, m)
  }

  // ----- the trie -----

  /** What the node vector spells: node n stands for path[n], index finds the node of a path again. */
  datatype Shape = Shape(path: seq<seq<Byte>>, index: map<seq<Byte>, nat>, parent: seq<nat>)

  function Last<T>(s: seq<T>): T
    requires s != []
  {
    s[|s| - 1]
  }

  ghost predicate Indexed(g: Shape) {
    && |g.path| == |g.parent| > 0
    && g.path[0] == []
    && (forall n :: 0 <= n < |g.path| ==> g.path[n] in g.index && g.index[g.path[n]] == n)
    && (forall s :: s in g.index ==> g.index[s] < |g.path| && g.path[g.index[s]] == s)
  }

  ghost predicate Parents(g: Shape) {
    && |g.path| == |g.parent|
    && forall n {:trigger g.parent[n]} :: 0 < n < |g.path| ==>
         g.parent[n] < n && g.path[n] != [] && g.path[g.parent[n]] == g.path[n][..|g.path[n]| - 1]
  }

  /** An edge appends one byte. */
  ghost predicate Edges(nodes: seq<Node>, g: Shape) {
    && |nodes| == |g.path|
    && forall n, c :: 0 <= n < |nodes| && c in nodes[n].children ==>
         0 < nodes[n].children[c] < |nodes| && g.path[nodes[n].children[c]] == g.path[n] + [c]
  }

  /** Every node but the root hangs below its parent. */
  ghost predicate Hangs(nodes: seq<Node>, g: Shape) {
    && |nodes| == |g.path| && Parents(g)
    && forall n {:trigger g.parent[n]} :: 0 < n < |nodes| ==>
         var p := g.parent[n];
         Last(g.path[n]) in nodes[p].children && nodes[p].children[Last(g.path[n])] == n
  }

  ghost predicate Trie(nodes: seq<Node>, g: Shape) {
    Indexed(g) && Parents(g) && Edges(nodes, g) && Hangs(nodes, g)
  }

  ghost predicate SameEdges(nodes: seq<Node>, nodes': seq<Node>) {
    |nodes| == |nodes'| && forall n :: 0 <= n < |nodes| ==> nodes[n].children == nodes'[n].children
  }

  lemma TrieFrame(nodes: seq<Node>, nodes': seq<Node>, g: Shape)
    requires Trie(nodes, g) && SameEdges(nodes, nodes')
    ensures Trie(nodes', g)
  {
  }

  lemma TriePrefixClosed(g: Shape)
    requires Indexed(g) && Parents(g)
    ensures PrefixClosed(g.index.Keys)
  {
    forall s | s in g.index.Keys && s != [] ensures s[..|s| - 1] in g.index.Keys {
      assert g.path[g.parent[g.index[s]]] in g.index;
    }
  }

  lemma EdgePath(nodes: seq<Node>, g: Shape, n: nat, c: Byte)
    requires Trie(nodes, g) && n < |nodes| && c in nodes[n].children
    ensures var child := nodes[n].children[c];
            0 < child < |nodes| && g.path[child] == g.path[n] + [c] && g.parent[child] == n && Last(g.path[child]) == c
  {
    var child := nodes[n].children[c];
    assert g.path[child] == g.path[n] + [c];
    assert (g.path[n] + [c])[..|g.path[n]|] == g.path[n];
    assert g.index[g.path[n]] == n && g.index[g.path[g.parent[child]]] == g.parent[child];
  }

  /** The child map decides whether a path can be extended. */
  lemma ChildIffPath(nodes: seq<Node>, g: Shape, n: nat, c: Byte)
    requires Trie(nodes, g) && n < |nodes|
    ensures c in nodes[n].children <==> g.path[n] + [c] in g.index
  {
    if c in nodes[n].children {
      EdgePath(nodes, g, n, c);
      assert g.path[nodes[n].children[c]] in g.index;
    }
    if g.path[n] + [c] in g.index {
      var m := g.index[g.path[n] + [c]];
      assert (g.path[n] + [c])[..|g.path[n]|] == g.path[n];
      assert g.index[g.path[n]] == n && g.index[g.path[g.parent[m]]] == g.parent[m];
    }
  }

  // ----- word lists and failure links -----

  /** While words are added, a node lists the entries spelled exactly by its path. */
  ghost predicate OwnWords(words: seq<Entry>, dict: seq<Entry>, s: seq<Byte>) {
    forall e :: multiset(words)[e] == if e.word == s then multiset(dict)[e] else 0
  }

  /** After build, a node lists every entry that is a suffix of its path. */
  ghost predicate SuffixWords(words: seq<Entry>, dict: seq<Entry>, s: seq<Byte>) {
    forall e :: multiset(words)[e] == if IsSuffix(e.word, s) then multiset(dict)[e] else 0
  }

  ghost predicate Owns(nodes: seq<Node>, g: Shape, dict: seq<Entry>, n: nat)
    requires n < |nodes| == |g.path|
  {
    OwnWords(nodes[n].words, dict, g.path[n])
  }

  ghost predicate InTrie(dict: seq<Entry>, paths: set<seq<Byte>>) {
    forall e :: e in dict ==> e.word != [] && e.word in paths
  }

  /** The failure link of n: the longest path that is a proper suffix of its own. */
  ghost predicate FailOk(nodes: seq<Node>, g: Shape, n: nat)
    requires Indexed(g) && 0 < n < |nodes| == |g.path|
  {
    && nodes[n].fail < |nodes|
    && g.path[n] != []
    && g.path[nodes[n].fail] == Longest(g.index.Keys, g.path[n][1..])
  }

  ghost predicate Final(nodes: seq<Node>, g: Shape, dict: seq<Entry>, n: nat)
    requires Indexed(g) && 0 < n < |nodes| == |g.path|
  {
    FailOk(nodes, g, n) && SuffixWords(nodes[n].words, dict, g.path[n])
  }

  /** Failure links lead to strictly shallower nodes. */
  lemma FailIsShallower(nodes: seq<Node>, g: Shape, n: nat)
    requires Indexed(g) && 0 < n < |nodes| == |g.path| && FailOk(nodes, g, n)
    ensures |g.path[nodes[n].fail]| < |g.path[n]|
  {
    LongestIsSuffix(g.index.Keys, g.path[n][1..]);
  }

  /** A path that is a suffix of s is either s itself or a suffix of the failure node's path. */
  lemma SuffixSplit(paths: set<seq<Byte>>, s: seq<Byte>, t: seq<Byte>, w: seq<Byte>)
    requires [] in paths && s != [] && t == Longest(paths, s[1..])
    ensures IsSuffix(w, t) ==> IsSuffix(w, s) && w != s
    ensures w in paths && IsSuffix(w, s) ==> w == s || IsSuffix(w, t)
  {
    LongestIsSuffix(paths, s[1..]);
    ProperSuffix(w, s);
    if IsSuffix(w, t) {
      SuffixTrans(w, t, s[1..]);
    } else if w in paths && IsSuffix(w, s) && w != s {
      LongestIsMaximal(paths, s[1..], w);
    }
  }

  /** Own entries plus those of the failure node are all entries that are suffixes. */
  lemma InheritedWords(own: seq<Entry>, inherited: seq<Entry>, dict: seq<Entry>,
                       paths: set<seq<Byte>>, s: seq<Byte>, t: seq<Byte>)
    requires [] in paths && InTrie(dict, paths) && s != [] && t == Longest(paths, s[1..])
    requires OwnWords(own, dict, s) && SuffixWords(inherited, dict, t)
    ensures SuffixWords(own + inherited, dict, s)
  {
    forall e ensures multiset(own + inherited)[e] == if IsSuffix(e.word, s) then multiset(dict)[e] else 0 {
      SuffixSplit(paths, s, t, e.word);
      assert e.word == s ==> IsSuffix(e.word, s);
      assert multiset(own + inherited)[e] == multiset(own)[e] + multiset(inherited)[e];
    }
  }

  /** The root lists nothing, since empty words are never added. */
  lemma RootLists(words: seq<Entry>, dict: seq<Entry>, paths: set<seq<Byte>>)
    requires InTrie(dict, paths) && OwnWords(words, dict, [])
    ensures words == [] && SuffixWords(words, dict, [])
  {
    assert multiset(words) == multiset{};
    assert |multiset(words)| == |words|;
  }

  // ----- growing the trie -----

  /** The state while words are being added. */
  ghost predicate Growing(nodes: seq<Node>, g: Shape, dict: seq<Entry>) {
    && Trie(nodes, g)
    && InTrie(dict, g.index.Keys)
    && forall n :: 0 <= n < |nodes| ==> Owns(nodes, g, dict, n)
  }

  function Grown(nodes: seq<Node>, cur: nat, c: Byte): (r: seq<Node>)
    requires cur < |nodes|
    ensures |r| == |nodes| + 1
    ensures forall n :: 0 <= n < |nodes| && n != cur ==> r[n] == nodes[n]
    ensures r[cur] == nodes[cur].(children := nodes[cur].children[c := |nodes|])
    ensures r[|nodes|] == EMPTY_NODE
  {
    nodes[cur := nodes[cur].(children := nodes[cur].children[c := |nodes|])] + [EMPTY_NODE]
  }

  ghost function GrownShape(g: Shape, cur: nat, c: Byte): Shape
    requires cur < |g.path|
  {
    var s := g.path[cur] + [c];
    Shape(g.path + [s], g.index[s := |g.path|], g.parent + [cur])
  }

  lemma GrowShape(g: Shape, cur: nat, c: Byte)
    requires Indexed(g) && Parents(g) && cur < |g.path| && g.path[cur] + [c] !in g.index
    ensures Indexed(GrownShape(g, cur, c)) && Parents(GrownShape(g, cur, c))
  {
    var g' := GrownShape(g, cur, c);
    assert g'.path[|g.path|][..|g.path[cur]|] == g.path[cur];
  }

  lemma GrowEdges(nodes: seq<Node>, g: Shape, cur: nat, c: Byte)
    requires Edges(nodes, g) && cur < |nodes| && c !in nodes[cur].children
    ensures Edges(Grown(nodes, cur, c), GrownShape(g, cur, c))
  {
    var nodes', g' := Grown(nodes, cur, c), GrownShape(g, cur, c);
    forall n, b | 0 <= n < |nodes'| && b in nodes'[n].children
      ensures 0 < nodes'[n].children[b] < |nodes'| && g'.path[nodes'[n].children[b]] == g'.path[n] + [b]
    {
      assert n < |nodes|;
      assert !(n == cur && b == c) ==> b in nodes[n].children && nodes'[n].children[b] == nodes[n].children[b];
    }
  }

  lemma GrowHangs(nodes: seq<Node>, g: Shape, cur: nat, c: Byte)
    requires Hangs(nodes, g) && cur < |nodes| && c !in nodes[cur].children
    requires Parents(GrownShape(g, cur, c))
    ensures Hangs(Grown(nodes, cur, c), GrownShape(g, cur, c))
  {
    var nodes', g' := Grown(nodes, cur, c), GrownShape(g, cur, c);
    forall n | 0 < n < |nodes'|
      ensures var p := g'.parent[n];
              Last(g'.path[n]) in nodes'[p].children && nodes'[p].children[Last(g'.path[n])] == n
    {
      if n < |nodes| {
        var p := g.parent[n];
        assert Last(g.path[n]) in nodes[p].children;
      }
    }
  }

  lemma NewPathOwnsNothing(dict: seq<Entry>, paths: set<seq<Byte>>, s: seq<Byte>)
    requires InTrie(dict, paths) && s !in paths
    ensures OwnWords([], dict, s)
  {
  }

  lemma GrowKeeps(nodes: seq<Node>, g: Shape, dict: seq<Entry>, cur: nat, c: Byte)
    requires Growing(nodes, g, dict) && cur < |nodes| && c !in nodes[cur].children
    ensures Growing(Grown(nodes, cur, c), GrownShape(g, cur, c), dict)
  {
    ChildIffPath(nodes, g, cur, c);
    GrowShape(g, cur, c);
    GrowEdges(nodes, g, cur, c);
    GrowHangs(nodes, g, cur, c);
    NewPathOwnsNothing(dict, g.index.Keys, g.path[cur] + [c]);
    forall n | 0 <= n < |nodes| ensures Owns(Grown(nodes, cur, c), GrownShape(g, cur, c), dict, n) {
      assert Owns(nodes, g, dict, n);
    }
  }

  /** Adding an entry to the node that spells it, and to no other, keeps the word lists right. */
  lemma OwnWordsAfterAdd(words: seq<Entry>, dict: seq<Entry>, s: seq<Byte>, e: Entry)
    requires OwnWords(words, dict, s)
    ensures OwnWords(if e.word == s then words + [e] else words, dict + [e], s)
  {
    assert multiset(dict + [e]) == multiset(dict) + multiset{e};
    assert multiset(words + [e]) == multiset(words) + multiset{e};
  }

  function WithWord(nodes: seq<Node>, n: nat, e: Entry): (r: seq<Node>)
    requires n < |nodes|
    ensures SameEdges(nodes, r)
  {
    nodes[n := nodes[n].(words := nodes[n].words + [e])]
  }

  lemma RecordKeeps(nodes: seq<Node>, g: Shape, dict: seq<Entry>, n: nat, e: Entry)
    requires Growing(nodes, g, dict) && n < |nodes| && g.path[n] == e.word != []
    ensures Growing(WithWord(nodes, n, e), g, dict + [e])
  {
    var nodes' := WithWord(nodes, n, e);
    TrieFrame(nodes, nodes', g);
    forall m | 0 <= m < |nodes'| ensures Owns(nodes', g, dict + [e], m) {
      assert Owns(nodes, g, dict, m);
      assert g.index[g.path[m]] == m;
      OwnWordsAfterAdd(nodes[m].words, dict, g.path[m], e);
    }
  }

  // ----- following failure links -----

  /** One failure link keeps the longest path that can still be reached by reading c. */
  lemma FollowFail(nodes: seq<Node>, g: Shape, n: nat, c: Byte)
    requires Trie(nodes, g) && 0 < n < |nodes| && FailOk(nodes, g, n) && c !in nodes[n].children
    ensures Longest(g.index.Keys, g.path[n] + [c]) == Longest(g.index.Keys, g.path[nodes[n].fail] + [c])
  {
    ChildIffPath(nodes, g, n, c);
    TriePrefixClosed(g);
    LongestSkips(g.index.Keys, g.path[n], c);
  }

  /** Where the walk stops, the child map gives the longest path; without a child only the root is left. */
  lemma WalkEnds(nodes: seq<Node>, g: Shape, n: nat, c: Byte)
    requires Trie(nodes, g) && n < |nodes| && (n == 0 || c in nodes[n].children)
    ensures Longest(g.index.Keys, g.path[n] + [c]) == if c in nodes[n].children then g.path[nodes[n].children[c]] else []
  {
    ChildIffPath(nodes, g, n, c);
    assert ([] + [c])[1..] == [];
  }

  /** Where the walk from the failure node of cur ends is where the child of cur by byte c has to fail to. */
  lemma FailTarget(nodes: seq<Node>, g: Shape, cur: nat, c: Byte, f: nat)
    requires Trie(nodes, g) && 0 < cur < |nodes| && c in nodes[cur].children && FailOk(nodes, g, cur)
    requires f < |nodes| && (f == 0 || c in nodes[f].children) && |g.path[f]| <= |g.path[nodes[cur].fail]|
    requires Longest(g.index.Keys, g.path[f] + [c]) == Longest(g.index.Keys, g.path[nodes[cur].fail] + [c])
    ensures var target := if c in nodes[f].children then nodes[f].children[c] else 0;
            && target < |nodes| && target != nodes[cur].children[c]
            && g.path[target] == Longest(g.index.Keys, (g.path[cur] + [c])[1..]) && |g.path[target]| <= |g.path[cur]|
  {
    FailIsShallower(nodes, g, cur);
    TriePrefixClosed(g);
    assert (g.path[cur] + [c])[1..] == g.path[cur][1..] + [c];
    LongestAfter(g.index.Keys, g.path[cur][1..], c);
    WalkEnds(nodes, g, f, c);
    EdgePath(nodes, g, cur, c);
    if c in nodes[f].children {
      EdgePath(nodes, g, f, c);
    }
  }

  // ----- breadth-first order -----

  ghost predicate Dequeued(order: seq<nat>, h: nat, n: nat)
    requires h <= |order|
  {
    exists k :: 0 <= k < h && order[k] == n
  }

  /** The nodes enqueued so far: the children of the root and of the first h dequeued nodes,
      except the children of cur whose byte is still in rem. */
  ghost predicate Frontier(g: Shape, order: seq<nat>, h: nat, cur: nat, rem: set<Byte>) {
    && Parents(g)
    && h <= |order|
    && forall n :: 0 < n < |g.path| ==> (n in order <==> Reached(g, order, h, cur, rem, n))
  }

  ghost predicate Reached(g: Shape, order: seq<nat>, h: nat, cur: nat, rem: set<Byte>, n: nat)
    requires Parents(g) && h <= |order| && 0 < n < |g.path|
  {
    && (g.parent[n] == 0 || Dequeued(order, h, g.parent[n]))
    && !(g.parent[n] == cur && Last(g.path[n]) in rem)
  }

  ghost predicate InDepthOrder(g: Shape, order: seq<nat>, cur: nat)
    requires cur < |g.path|
  {
    && NoDuplicates(order)
    && (forall i {:trigger order[i]} :: 0 <= i < |order| ==> 0 < order[i] < |g.path| && |g.path[order[i]]| <= |g.path[cur]| + 1)
    && (forall i, j :: 0 <= i < j < |order| ==> |g.path[order[i]]| <= |g.path[order[j]]|)
  }

  /** When cur is dequeued, no node of at most its depth is still missing from the queue. */
  lemma {:induction false} ShallowAreEnqueued(g: Shape, order: seq<nat>, h: nat, cur: nat, rem: set<Byte>, n: nat)
    requires 0 < h <= |order| && order[h - 1] == cur < |g.path|
    requires Frontier(g, order, h, cur, rem) && InDepthOrder(g, order, cur)
    requires 0 < n < |g.path| && |g.path[n]| <= |g.path[cur]|
    ensures n in order
  {
    var p := g.parent[n];
    if p != 0 {
      ShallowAreEnqueued(g, order, h, cur, rem, p);
      var k :| 0 <= k < |order| && order[k] == p;
      assert k < h;
      assert Dequeued(order, h, p);
    }
    assert Reached(g, order, h, cur, rem, n);
  }

  lemma FrontierStart(nodes: seq<Node>, g: Shape)
    requires Trie(nodes, g)
    ensures Frontier(g, [], 0, 0, nodes[0].children.Keys) && InDepthOrder(g, [], 0)
  {
  }

  lemma FrontierPush(nodes: seq<Node>, g: Shape, order: seq<nat>, h: nat, cur: nat, rem: set<Byte>, c: Byte)
    requires Trie(nodes, g) && cur < |g.path| && c in rem && c in nodes[cur].children
    requires Frontier(g, order, h, cur, rem)
    requires cur == 0 || Dequeued(order, h, cur)
    ensures nodes[cur].children[c] !in order
    ensures Frontier(g, order + [nodes[cur].children[c]], h, cur, rem - {c})
  {
    var child := nodes[cur].children[c];
    EdgePath(nodes, g, cur, c);
    var order' := order + [child];
    assert !Reached(g, order, h, cur, rem, child);
    forall n | 0 < n < |g.path| ensures n in order' <==> Reached(g, order', h, cur, rem - {c}, n) {
      assert n in order' <==> n in order || n == child;
      DequeuedPrefix(order, child, h, g.parent[n]);
      if g.parent[n] == cur && Last(g.path[n]) == c {
        assert g.path[n] == g.path[child];
        assert g.index[g.path[n]] == n;
      }
    }
  }

  lemma DequeuedPrefix(order: seq<nat>, child: nat, h: nat, p: nat)
    requires h <= |order|
    ensures Dequeued(order + [child], h, p) <==> Dequeued(order, h, p)
  {
    assert forall k :: 0 <= k < h ==> (order + [child])[k] == order[k];
  }

  lemma DepthPush(g: Shape, order: seq<nat>, cur: nat, child: nat)
    requires cur < |g.path| && InDepthOrder(g, order, cur)
    requires 0 < child < |g.path| && |g.path[child]| == |g.path[cur]| + 1 && child !in order
    ensures InDepthOrder(g, order + [child], cur)
  {
  }

  lemma FrontierPop(nodes: seq<Node>, g: Shape, order: seq<nat>, h: nat, cur: nat)
    requires Trie(nodes, g) && cur < |g.path| && h < |order|
    requires InDepthOrder(g, order, cur) && |g.path[cur]| <= |g.path[order[h]]|
    requires Frontier(g, order, h, cur, {})
    ensures 0 < order[h] < |nodes|
    ensures Frontier(g, order, h + 1, order[h], nodes[order[h]].children.Keys)
    ensures InDepthOrder(g, order, order[h])
  {
    var next := order[h];
    forall n | 0 < n < |g.path| ensures n in order <==> Reached(g, order, h + 1, next, nodes[next].children.Keys, n) {
      var p := g.parent[n];
      assert n in order <==> Reached(g, order, h, cur, {}, n);
      assert Dequeued(order, h + 1, p) <==> Dequeued(order, h, p) || p == next;
      assert !Dequeued(order, h, next);
      assert p == next ==> Last(g.path[n]) in nodes[next].children;
    }
  }

  /** Enqueuing one child of the node dequeued last. */
  lemma ExpandStep(nodes: seq<Node>, g: Shape, order: seq<nat>, h: nat, cur: nat, rem: set<Byte>, c: Byte)
    requires Trie(nodes, g) && 0 < cur < |g.path| && c in rem && c in nodes[cur].children
    requires 0 < h <= |order| && order[h - 1] == cur
    requires Frontier(g, order, h, cur, rem) && InDepthOrder(g, order, cur)
    ensures nodes[cur].children[c] !in order
    ensures forall n :: 0 < n < |g.path| && |g.path[n]| <= |g.path[cur]| ==> n in order
    ensures Frontier(g, order + [nodes[cur].children[c]], h, cur, rem - {c})
    ensures InDepthOrder(g, order + [nodes[cur].children[c]], cur)
  {
    forall n | 0 < n < |g.path| && |g.path[n]| <= |g.path[cur]| ensures n in order {
      ShallowAreEnqueued(g, order, h, cur, rem, n);
    }
    EdgePath(nodes, g, cur, c);
    assert Dequeued(order, h, cur);
    FrontierPush(nodes, g, order, h, cur, rem, c);
    DepthPush(g, order, cur, nodes[cur].children[c]);
  }

  /** Once the queue is empty every node but the root has been enqueued. */
  lemma {:induction false} AllEnqueued(g: Shape, order: seq<nat>, cur: nat, n: nat)
    requires Frontier(g, order, |order|, cur, {}) && 0 < n < |g.path|
    ensures n in order
  {
    var p := g.parent[n];
    if p != 0 {
      AllEnqueued(g, order, cur, p);
      var k :| 0 <= k < |order| && order[k] == p;
      assert Dequeued(order, |order|, p);
    }
    assert Reached(g, order, |order|, cur, {}, n);
  }

  // ----- build, one node at a time -----

  /** Enqueued nodes are final, the others still list only their own entries. */
  ghost predicate Building(nodes: seq<Node>, g: Shape, dict: seq<Entry>, order: seq<nat>) {
    && Trie(nodes, g)
    && InTrie(dict, g.index.Keys)
    && nodes[0].words == []
    && (forall n :: n in order ==> 0 < n < |nodes| && Final(nodes, g, dict, n))
    && (forall n :: 0 < n < |nodes| && n !in order ==> Owns(nodes, g, dict, n))
  }

  /** The state once build has run. */
  ghost predicate Ready(nodes: seq<Node>, g: Shape, dict: seq<Entry>) {
    && Trie(nodes, g)
    && InTrie(dict, g.index.Keys)
    && nodes[0].words == []
    && forall n :: 0 < n < |nodes| ==> Final(nodes, g, dict, n)
  }

  lemma BuiltIsReady(nodes: seq<Node>, g: Shape, dict: seq<Entry>, order: seq<nat>, last: nat)
    requires Building(nodes, g, dict, order) && Frontier(g, order, |order|, last, {})
    ensures Ready(nodes, g, dict) && forall n :: n in order <==> 0 < n < |nodes|
  {
    forall n | 0 < n < |nodes| ensures n in order && Final(nodes, g, dict, n) {
      AllEnqueued(g, order, last, n);
    }
  }

  function WithFail(nodes: seq<Node>, child: nat, f: nat): (r: seq<Node>)
    requires child < |nodes| && f < |nodes|
    ensures SameEdges(nodes, r)
  {
    nodes[child := nodes[child].(fail := f, words := nodes[child].words + if f != 0 then nodes[f].words else [])]
  }

  lemma LinkChild(nodes: seq<Node>, g: Shape, dict: seq<Entry>, order: seq<nat>, child: nat, f: nat)
    requires Building(nodes, g, dict, order)
    requires 0 < child < |nodes| && child !in order && f < |nodes| && (f == 0 || f in order)
    requires g.path[child] != [] && g.path[f] == Longest(g.index.Keys, g.path[child][1..])
    ensures Building(WithFail(nodes, child, f), g, dict, order + [child])
  {
    var nodes' := WithFail(nodes, child, f);
    TrieFrame(nodes, nodes', g);
    assert Owns(nodes, g, dict, child);
    if f == 0 {
      RootLists([], dict, g.index.Keys);
    }
    InheritedWords(nodes[child].words, if f != 0 then nodes[f].words else [], dict, g.index.Keys, g.path[child], g.path[f]);
    assert Final(nodes', g, dict, child);
    forall n | 0 < n < |nodes'| && n !in order + [child] ensures Owns(nodes', g, dict, n) {
      assert Owns(nodes, g, dict, n);
    }
    forall n | n in order + [child] ensures 0 < n < |nodes'| && Final(nodes', g, dict, n) {
      assert n != child ==> Final(nodes, g, dict, n);
    }
  }

  // ----- the scan -----

  /** The result after i bytes: exactly the occurrences that end within them. */
  ghost predicate FoundUpTo(dict: seq<Entry>, text: seq<Byte>, i: nat, result: seq<Match>) {
    forall m :: multiset(result)[m] == if m.start + m.length <= i then Expected(dict, text, m) else 0
  }

  /** The matches that one node's word list contributes at end position i. */
  ghost function ReportedAt(words: seq<Entry>, i: nat, m: Match): nat {
    if m.length == |m.word| && m.start + m.length == i then multiset(words)[Entry(m.word, m.category)] else 0
  }

  /** The words listed at the longest path are the dictionary words that end here. */
  lemma WordsEndHere(words: seq<Entry>, dict: seq<Entry>, paths: set<seq<Byte>>, s: seq<Byte>, e: Entry)
    requires [] in paths && InTrie(dict, paths) && SuffixWords(words, dict, Longest(paths, s))
    ensures multiset(words)[e] == if IsSuffix(e.word, s) then multiset(dict)[e] else 0
    ensures e in words ==> 0 < |e.word| <= |s|
  {
    LongestIsSuffix(paths, s);
    if IsSuffix(e.word, Longest(paths, s)) {
      SuffixTrans(e.word, Longest(paths, s), s);
    }
    if e in dict && IsSuffix(e.word, s) {
      LongestIsMaximal(paths, s, e.word);
    }
  }

  lemma FoundOneMore(dict: seq<Entry>, text: seq<Byte>, i: nat, result: seq<Match>,
                     words: seq<Entry>, result': seq<Match>)
    requires i < |text| && FoundUpTo(dict, text, i, result)
    requires forall e :: multiset(words)[e] == if IsSuffix(e.word, text[..i + 1]) then multiset(dict)[e] else 0
    requires forall m :: multiset(result')[m] == multiset(result)[m] + ReportedAt(words, i + 1, m)
    ensures FoundUpTo(dict, text, i + 1, result')
  {
    forall m ensures multiset(result')[m] == if m.start + m.length <= i + 1 then Expected(dict, text, m) else 0 {
      if m.length == |m.word| && m.start + m.length == i + 1 {
        assert text[..i + 1][i + 1 - |m.word|..] == text[m.start..m.start + |m.word|];
        assert IsSuffix(m.word, text[..i + 1]) <==> OccursAt(m.word, text, m.start);
      }
    }
  }

  lemma ReportedOneMore(words: seq<Entry>, e: Entry, end: nat, m: Match)
    requires |e.word| <= end
    ensures ReportedAt(words + [e], end, m)
         == ReportedAt(words, end, m) + if m == Match(end - |e.word|, |e.word|, e.word, e.category) then 1 else 0
  {
  }
}
