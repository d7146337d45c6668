/** The theory behind the automaton: the longest suffix of a string that belongs to a prefix-closed set. */
module LongestSuffix {

  ghost predicate IsSuffix<T>(t: seq<T>, s: seq<T>) {
    |t| <= |s| && s[|s| - |t|..] == t
  }

  lemma SuffixTrans<T>(a: seq<T>, b: seq<T>, c: seq<T>)
    requires IsSuffix(a, b) && IsSuffix(b, c)
    ensures IsSuffix(a, c)
  {
    assert c[|c| - |a|..] == b[|b| - |a|..];
  }

  lemma ProperSuffix<T>(t: seq<T>, s: seq<T>)
    requires s != []
    ensures IsSuffix(t, s[1..]) <==> IsSuffix(t, s) && t != s
  {
    if |t| < |s| {
      assert s[1..][|s| - 1 - |t|..] == s[|s| - |t|..];
    } else if |t| == |s| {
      assert s[0..] == s;
    }
  }

  ghost predicate PrefixClosed<T>(paths: set<seq<T>>) {
    && [] in paths
    && forall s :: s in paths && s != [] ==> s[..|s| - 1] in paths
  }

  /** The longest suffix of s among the paths; the empty path is always there to stop at. */
  ghost function Longest<T>(paths: set<seq<T>>, s: seq<T>): seq<T>
    requires [] in paths
  {
    if s in paths then s else Longest(paths, s[1..])
  }

  lemma {:induction false} LongestIsSuffix<T>(paths: set<seq<T>>, s: seq<T>)
    requires [] in paths
    ensures Longest(paths, s) in paths
    ensures IsSuffix(Longest(paths, s), s)
  {
    if s !in paths {
      LongestIsSuffix(paths, s[1..]);
    }
  }

  /** Every suffix of s that is a path is already a suffix of the longest one. */
  lemma {:induction false} LongestIsMaximal<T>(paths: set<seq<T>>, s: seq<T>, t: seq<T>)
    requires [] in paths && t in paths && IsSuffix(t, s)
    ensures IsSuffix(t, Longest(paths, s))
  {
    if s !in paths {
      assert t == s[1..][|s[1..]| - |t|..];
      LongestIsMaximal(paths, s[1..], t);
    }
  }

  /** Reading one more symbol: only the longest suffix so far has to be remembered. */
  lemma {:induction false} LongestAfter<T>(paths: set<seq<T>>, s: seq<T>, c: T)
    requires PrefixClosed(paths)
    ensures Longest(paths, s + [c]) == Longest(paths, Longest(paths, s) + [c])
  {
    if s !in paths {
      assert (s + [c])[..|s|] == s;
      assert (s + [c])[1..] == s[1..] + [c];
      LongestAfter(paths, s[1..], c);
    }
  }

  /** If reading c leads nowhere from s, it leads where it does from the longest path strictly inside s. */
  lemma LongestSkips<T>(paths: set<seq<T>>, s: seq<T>, c: T)
    requires PrefixClosed(paths) && s != [] && s + [c] !in paths
    ensures Longest(paths, s + [c]) == Longest(paths, Longest(paths, s[1..]) + [c])
  {
    assert (s + [c])[1..] == s[1..] + [c];
    LongestAfter(paths, s[1..], c);
  }
}
