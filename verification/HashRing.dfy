/** Consistent hashing as in src/gateway/ConsistentHashRing.h; the hash function is an arbitrary parameter. */
module HashRing {
  import Pigeonhole
  import opened Decimal

  const SPACE := 0x1_0000_0000_0000_0000
  type U64 = x: int | 0 <= x < SPACE
  type Hash = string -> U64
  type Ring = map<U64, string>

  // ----- labels of virtual nodes -----

  function Label(node: string, i: nat): string {
    node + "#" + ToDecimal(i)
  }

  function LastHash(s: string): int {
    if s == [] then -1 else if s[|s| - 1] == '#' then |s| - 1 else LastHash(s[..|s| - 1])
  }

  lemma {:induction false} LastHashAt(a: string, x: string)
    requires '#' !in x
    ensures LastHash(a + "#" + x) == |a|
  {
    if x == [] {
      assert a + "#" + x == a + "#";
    } else {
      var s := a + "#" + x;
      assert s[..|s| - 1] == a + "#" + x[..|x| - 1];
      LastHashAt(a, x[..|x| - 1]);
    }
  }

  lemma SplitAtLastHash(a: string, x: string, b: string, y: string)
    requires '#' !in x && '#' !in y && a + "#" + x == b + "#" + y
    ensures a == b && x == y
  {
    var s := a + "#" + x;
    LastHashAt(a, x);
    LastHashAt(b, y);
    assert s[..|a|] == a && s[..|b|] == b;
    assert s[|a| + 1..] == x && s[|b| + 1..] == y;
  }

  /** Node names may contain '#' and digits; the labels still never coincide. */
  lemma LabelsAreInjective(a: string, i: nat, b: string, j: nat)
    requires Label(a, i) == Label(b, j)
    ensures a == b && i == j
  {
    SplitAtLastHash(a, ToDecimal(i), b, ToDecimal(j));
    DecimalRoundTrip(i);
    DecimalRoundTrip(j);
  }

  // ----- the ring operations -----

  /** addNode after its first i iterations. */
  function AddUpTo(hash: Hash, ring: Ring, node: string, i: nat): Ring {
    if i == 0 then ring else AddUpTo(hash, ring, node, i - 1)[hash(Label(node, i - 1)) := node]
  }

  predicate Maps(ring: Ring, k: U64, node: string) {
    k in ring && ring[k] == node
  }

  function Without(ring: Ring, node: string): Ring {
    map k | k in ring && ring[k] != node :: ring[k]
  }

  ghost function Least(keys: set<U64>): (m: U64)
    requires keys != {}
    ensures m in keys && forall k :: k in keys ==> m <= k
  {
    var x :| x in keys;
    if keys == {x} then x
    else
      var m := Least(keys - {x});
      assert keys == (keys - {x}) + {x};
      if m <= x then m else x
  }

  function Above(keys: set<U64>, h: U64): set<U64> {
    set k | k in keys && k >= h
  }

  /** lower_bound, wrapping to the first key. */
  ghost function Owner(keys: set<U64>, h: U64): (k: U64)
    requires keys != {}
    ensures k in keys
  {
    if Above(keys, h) != {} then Least(Above(keys, h)) else Least(keys)
  }

  /** get on the hash of a key; the empty string for an empty ring. */
  ghost function Lookup(ring: Ring, h: U64): string {
    if ring.Keys == {} then "" else ring[Owner(ring.Keys, h)]
  }

  class ConsistentHashRing {
    const virtualNodes: nat
    const hash: Hash
    var ring: Ring

    constructor (hash: Hash, virtualNodes: nat)
      ensures this.hash == hash && this.virtualNodes == virtualNodes && ring == map[]
    {
      this.hash, this.virtualNodes, ring := hash, virtualNodes, map[];
    }

    method AddNode(node: string)
      modifies this
      ensures ring == AddUpTo(hash, old(ring), node, virtualNodes)
      ensures forall i :: 0 <= i < virtualNodes ==> Maps(ring, hash(node + "#" + ToDecimal(i)), node)
    {
      AddedLabels(hash, ring, node, virtualNodes);
      for i := 0 to virtualNodes
        invariant ring == AddUpTo(hash, old(ring), node, i)
      {
        var h := hash(Label(node, i));
        ring := ring[h := node];
      }
    }

    method RemoveNode(node: string)
      modifies this
      ensures ring == Without(old(ring), node)
      ensures forall k :: k in ring <==> k in old(ring) && old(ring)[k] != node
    {
      var left := ring.Keys;
      while left != {}
        invariant left <= ring.Keys <= old(ring).Keys
        invariant forall k :: k in old(ring) && (k in left || old(ring)[k] != node) ==> k in ring
        invariant forall k :: k in ring ==> ring[k] == old(ring)[k] && (k in left || ring[k] != node)
      {
        var k :| k in left;
        if ring[k] == node { ring := ring - {k}; }
        left := left - {k};
      }
    }

    method Get(key: string) returns (node: string)
      ensures node == Lookup(ring, hash(key))
    {
      if ring.Keys == {} { return ""; }
      var h := hash(key);
      var above := Above(ring.Keys, h);
      var k;
      if above != {} { k := First(above); } else { k := First(ring.Keys); }
      node := ring[k];
    }

    static method First(keys: set<U64>) returns (m: U64)
      requires keys != {}
      ensures m == Least(keys)
    {
      m :| m in keys;
      var left := keys - {m};
      while left != {}
        invariant left <= keys && m in keys && forall k :: k in keys ==> k in left || m <= k
      {
        var k :| k in left;
        if k < m { m := k; }
        left := left - {k};
      }
    }
  }

  // ----- keys move as little as possible, for any hash -----

  /** How far k lies clockwise from h. */
  function Clockwise(h: U64, k: U64): nat {
    if k >= h then k - h else k - h + SPACE
  }

  lemma OwnerIsNearest(keys: set<U64>, h: U64, k: U64)
    requires k in keys
    ensures Clockwise(h, Owner(keys, h)) <= Clockwise(h, k)
  {
    assert k >= h ==> k in Above(keys, h);
  }

  lemma OwnerIsUnique(keys: set<U64>, h: U64, k: U64)
    requires k in keys && forall x :: x in keys ==> Clockwise(h, k) <= Clockwise(h, x)
    ensures Owner(keys, h) == k
  {
    OwnerIsNearest(keys, h, k);
    assert Clockwise(h, k) <= Clockwise(h, Owner(keys, h));
  }

  lemma InsertMovesOnlyToNew(ring: Ring, k: U64, node: string, h: U64)
    ensures Lookup(ring[k := node], h) == Lookup(ring, h) || Lookup(ring[k := node], h) == node
  {
    var ring' := ring[k := node];
    assert k in ring'.Keys;
    var o := Owner(ring'.Keys, h);
    if o != k {
      forall x | x in ring.Keys ensures Clockwise(h, o) <= Clockwise(h, x) { OwnerIsNearest(ring'.Keys, h, x); }
      OwnerIsUnique(ring.Keys, h, o);
    }
  }

  /** Adding a node moves a key only to that node. */
  lemma {:induction false} AddMovesOnlyToNew(hash: Hash, ring: Ring, node: string, i: nat, h: U64)
    ensures Lookup(AddUpTo(hash, ring, node, i), h) == Lookup(ring, h) || Lookup(AddUpTo(hash, ring, node, i), h) == node
  {
    if i > 0 {
      AddMovesOnlyToNew(hash, ring, node, i - 1, h);
      InsertMovesOnlyToNew(AddUpTo(hash, ring, node, i - 1), hash(Label(node, i - 1)), node, h);
    }
  }

  /** Removing a node moves only the keys that mapped to it, and it moves all of those. */
  lemma RemoveMovesOnlyOwn(ring: Ring, node: string, h: U64)
    ensures Lookup(ring, h) != node ==> Lookup(Without(ring, node), h) == Lookup(ring, h)
    ensures Lookup(Without(ring, node), h) == node ==> Without(ring, node) == map[]
  {
    var ring' := Without(ring, node);
    if ring.Keys != {} && Lookup(ring, h) != node {
      var o := Owner(ring.Keys, h);
      assert o in ring';
      forall x | x in ring'.Keys ensures Clockwise(h, o) <= Clockwise(h, x) { OwnerIsNearest(ring.Keys, h, x); }
      OwnerIsUnique(ring'.Keys, h, o);
    }
  }

  // ----- the ring depends only on the live nodes, exactly if nodes do not collide -----

  datatype Op = Add(node: string) | Remove(node: string)

  ghost function Apply(hash: Hash, v: nat, ops: seq<Op>): Ring {
    if ops == [] then map[]
    else
      var ring, op := Apply(hash, v, ops[..|ops| - 1]), ops[|ops| - 1];
      if op.Add? then AddUpTo(hash, ring, op.node, v) else Without(ring, op.node)
  }

  ghost function Live(ops: seq<Op>): set<string> {
    if ops == [] then {}
    else
      var s, op := Live(ops[..|ops| - 1]), ops[|ops| - 1];
      if op.Add? then s + {op.node} else s - {op.node}
  }

  /** Among the given nodes, virtual nodes of different nodes have different hashes. */
  ghost predicate CollisionFree(hash: Hash, v: nat, nodes: set<string>) {
    forall a, b, i, j :: a in nodes && b in nodes && 0 <= i < v && 0 <= j < v && hash(Label(a, i)) == hash(Label(b, j)) ==> a == b
  }

  /** A history of the given nodes. */
  ghost predicate Among(ops: seq<Op>, nodes: set<string>) {
    forall op :: op in ops ==> op.node in nodes
  }

  /** The ring holds the virtual nodes of the nodes in s, and nothing else. */
  ghost predicate IsRingOf(hash: Hash, v: nat, ring: Ring, s: set<string>) {
    && (forall n, i :: n in s && 0 <= i < v ==> hash(Label(n, i)) in ring && ring[hash(Label(n, i))] == n)
    && (forall k :: k in ring ==> ring[k] in s && exists i :: 0 <= i < v && hash(Label(ring[k], i)) == k)
  }

  lemma SameMembersSameRing(hash: Hash, v: nat, ring: Ring, ring': Ring, s: set<string>)
    requires IsRingOf(hash, v, ring, s) && IsRingOf(hash, v, ring', s)
    ensures ring == ring'
  {
  }

  lemma {:induction false} AddUpToIs(hash: Hash, ring: Ring, node: string, i: nat, k: U64)
    ensures k in AddUpTo(hash, ring, node, i) <==> k in ring || exists j :: 0 <= j < i && hash(Label(node, j)) == k
    ensures k in AddUpTo(hash, ring, node, i) ==>
              AddUpTo(hash, ring, node, i)[k] == if exists j :: 0 <= j < i && hash(Label(node, j)) == k then node else ring[k]
  {
    if i > 0 {
      AddUpToIs(hash, ring, node, i - 1, k);
      assert hash(Label(node, i - 1)) == k ==> exists j :: 0 <= j < i && hash(Label(node, j)) == k;
    }
  }

  /** An added node is found at the hash of each of its labels, whatever collides. */
  lemma AddedLabels(hash: Hash, ring: Ring, node: string, v: nat)
    ensures forall i :: 0 <= i < v ==> Maps(AddUpTo(hash, ring, node, v), hash(node + "#" + ToDecimal(i)), node)
  {
    forall i | 0 <= i < v ensures Maps(AddUpTo(hash, ring, node, v), hash(node + "#" + ToDecimal(i)), node) {
      AddUpToIs(hash, ring, node, v, hash(Label(node, i)));
    }
  }

  lemma AddKeeps(hash: Hash, v: nat, ring: Ring, s: set<string>, node: string, nodes: set<string>)
    requires CollisionFree(hash, v, nodes) && s <= nodes && node in nodes && IsRingOf(hash, v, ring, s)
    ensures IsRingOf(hash, v, AddUpTo(hash, ring, node, v), s + {node})
  {
    var ring' := AddUpTo(hash, ring, node, v);
    forall n, i | n in s + {node} && 0 <= i < v ensures hash(Label(n, i)) in ring' && ring'[hash(Label(n, i))] == n {
      AddUpToIs(hash, ring, node, v, hash(Label(n, i)));
    }
    forall k | k in ring' ensures ring'[k] in s + {node} && exists i :: 0 <= i < v && hash(Label(ring'[k], i)) == k {
      AddUpToIs(hash, ring, node, v, k);
    }
  }

  /** Without collisions among the nodes of a history, the ring holds exactly the virtual nodes of the live ones. */
  lemma {:induction false} ApplyIsRingOf(hash: Hash, v: nat, ops: seq<Op>, nodes: set<string>)
    requires CollisionFree(hash, v, nodes) && Among(ops, nodes)
    ensures Live(ops) <= nodes && IsRingOf(hash, v, Apply(hash, v, ops), Live(ops))
    decreases |ops|
  {
    if ops != [] {
      var front, op := ops[..|ops| - 1], ops[|ops| - 1];
      assert op in ops && op.node in nodes;
      ApplyIsRingOf(hash, v, front, nodes);
      if op.Add? {
        AddKeeps(hash, v, Apply(hash, v, front), Live(front), op.node, nodes);
      }
    }
  }

  /** Equal membership gives equal rings, and so equal routes, after any two histories of the nodes. */
  ghost predicate MembershipDecides(hash: Hash, v: nat, nodes: set<string>) {
    forall ops, ops' :: Among(ops, nodes) && Among(ops', nodes) && Live(ops) == Live(ops') ==> Apply(hash, v, ops) == Apply(hash, v, ops')
  }

  lemma TwoAdds(hash: Hash, v: nat, a: string, b: string)
    ensures Live([Add(a), Add(b)]) == {a, b}
    ensures Apply(hash, v, [Add(a), Add(b)]) == AddUpTo(hash, AddUpTo(hash, map[], a, v), b, v)
  {
    assert [Add(a), Add(b)][..1] == [Add(a)] && [Add(a)][..0] == [];
    assert Live([Add(a)]) == {a};
    assert Apply(hash, v, [Add(a)]) == AddUpTo(hash, map[], a, v);
  }

  /** The property gateways rely on, and the exact condition on hash and nodes for it. */
  lemma MembershipDecidesIffCollisionFree(hash: Hash, v: nat, nodes: set<string>)
    ensures MembershipDecides(hash, v, nodes) <==> CollisionFree(hash, v, nodes)
  {
    if CollisionFree(hash, v, nodes) {
      forall ops, ops' | Among(ops, nodes) && Among(ops', nodes) && Live(ops) == Live(ops') ensures Apply(hash, v, ops) == Apply(hash, v, ops') {
        ApplyIsRingOf(hash, v, ops, nodes);
        ApplyIsRingOf(hash, v, ops', nodes);
        SameMembersSameRing(hash, v, Apply(hash, v, ops), Apply(hash, v, ops'), Live(ops));
      }
    } else {
      var a, b, i, j :| a in nodes && b in nodes && 0 <= i < v && 0 <= j < v && hash(Label(a, i)) == hash(Label(b, j)) && a != b;
      var k := hash(Label(a, i));
      TwoAdds(hash, v, a, b);
      TwoAdds(hash, v, b, a);
      AddUpToIs(hash, AddUpTo(hash, map[], a, v), b, v, k);
      AddUpToIs(hash, AddUpTo(hash, map[], b, v), a, v, k);
      assert Apply(hash, v, [Add(a), Add(b)])[k] == b && Apply(hash, v, [Add(b), Add(a)])[k] == a;
      assert Among([Add(a), Add(b)], nodes) && Among([Add(b), Add(a)], nodes);
    }
  }

  /** The hash separates all labels of the given nodes. */
  ghost predicate SeparatesLabels(hash: Hash, v: nat, nodes: set<string>) {
    forall a, b, i, j :: a in nodes && b in nodes && 0 <= i < v && 0 <= j < v && Label(a, i) != Label(b, j) ==>
      hash(Label(a, i)) != hash(Label(b, j))
  }

  /** A hash that separates the label strings of the nodes is enough. */
  lemma DistinctLabelHashesSuffice(hash: Hash, v: nat, nodes: set<string>)
    requires SeparatesLabels(hash, v, nodes)
    ensures MembershipDecides(hash, v, nodes)
  {
    forall a, b, i, j | a in nodes && b in nodes && 0 <= i < v && 0 <= j < v && hash(Label(a, i)) == hash(Label(b, j)) ensures a == b {
      assert Label(a, i) == Label(b, j);
      LabelsAreInjective(a, i, b, j);
    }
    MembershipDecidesIffCollisionFree(hash, v, nodes);
  }

  lemma RemoveKeeps(hash: Hash, v: nat, ring: Ring, s: set<string>, node: string)
    requires IsRingOf(hash, v, ring, s)
    ensures IsRingOf(hash, v, Without(ring, node), s - {node})
  {
  }

  // ----- for which sets of nodes there is such a hash -----

  /** Distinct numbers for the nodes. */
  ghost predicate Numbers(rank: map<string, nat>, nodes: set<string>) {
    && rank.Keys == nodes
    && (forall n :: n in nodes ==> rank[n] < |nodes|)
    && forall a, b :: a in nodes && b in nodes && rank[a] == rank[b] ==> a == b
  }

  lemma {:induction false} NumbersExist(nodes: set<string>) returns (rank: map<string, nat>)
    ensures Numbers(rank, nodes)
  {
    if nodes == {} {
      rank := map[];
    } else {
      var n :| n in nodes;
      var rest := NumbersExist(nodes - {n});
      rank := rest[n := |nodes| - 1];
    }
  }

  function NodeOf(text: string): string {
    if 0 <= LastHash(text) <= |text| then text[..LastHash(text)] else ""
  }

  function IndexOf(text: string): int {
    if 0 <= LastHash(text) < |text| then FromDecimal(text[LastHash(text) + 1..]) else 0
  }

  lemma LabelParts(node: string, i: nat)
    ensures NodeOf(Label(node, i)) == node && IndexOf(Label(node, i)) == i
  {
    LastHashAt(node, ToDecimal(i));
    DecimalRoundTrip(i);
    var s := Label(node, i);
    assert s[..|node|] == node && s[|node| + 1..] == ToDecimal(i);
  }

  function Position(rank: map<string, nat>, v: nat, text: string): U64 {
    var n := NodeOf(text);
    var k := if n in rank then rank[n] * v + IndexOf(text) else 0;
    if 0 <= k < SPACE then k else 0
  }

  lemma PositionsDiffer(r: nat, i: nat, r': nat, i': nat, v: nat)
    requires i < v && i' < v && r * v + i == r' * v + i'
    ensures r == r' && i == i'
  {
    if r < r' {
      TimesGrows(r + 1, r', v);
    } else if r' < r {
      TimesGrows(r' + 1, r, v);
    }
  }

  lemma PositionFits(rank: map<string, nat>, nodes: set<string>, v: nat, node: string, i: nat)
    requires Numbers(rank, nodes) && node in nodes && i < v && |nodes| * v <= SPACE
    ensures Position(rank, v, Label(node, i)) == rank[node] * v + i
  {
    LabelParts(node, i);
    TimesGrows(rank[node] + 1, |nodes|, v);
    var k := rank[node] * v + i;
    assert k < (rank[node] + 1) * v;
  }

  /** As long as the virtual nodes do not outnumber the hash values there is a hash that separates them, so that equal
      membership gives equal rings. */
  lemma SomeHashSeparates(nodes: set<string>, v: nat) returns (hash: Hash)
    requires |nodes| * v <= SPACE
    ensures SeparatesLabels(hash, v, nodes) && MembershipDecides(hash, v, nodes)
  {
    var rank := NumbersExist(nodes);
    hash := (text: string) => Position(rank, v, text);
    forall a, b, i, j | a in nodes && b in nodes && 0 <= i < v && 0 <= j < v && Label(a, i) != Label(b, j)
      ensures hash(Label(a, i)) != hash(Label(b, j))
    {
      PositionFits(rank, nodes, v, a, i);
      PositionFits(rank, nodes, v, b, j);
      if rank[a] * v + i == rank[b] * v + j {
        PositionsDiffer(rank[a], i, rank[b], j, v);
      }
    }
    DistinctLabelHashesSuffice(hash, v, nodes);
  }

  function FirstHash(hash: Hash, i: nat): (h: nat)
    ensures h < SPACE
  {
    hash(Label(ToDecimal(i), 0))
  }

  /** No 64-bit hash is free of collisions for every conceivable node name. */
  lemma NoHashSeparatesAllNames(hash: Hash, v: nat) returns (a: string, b: string)
    requires v > 0
    ensures a != b && hash(Label(a, 0)) == hash(Label(b, 0)) && !CollisionFree(hash, v, {a, b})
  {
    var values := seq<nat>(SPACE + 1, i requires 0 <= i < SPACE + 1 => FirstHash(hash, i));
    var i, j := Pigeonhole.TwoAreEqual(values, SPACE);
    a, b := ToDecimal(i), ToDecimal(j);
    DecimalRoundTrip(i);
    DecimalRoundTrip(j);
  }
}
