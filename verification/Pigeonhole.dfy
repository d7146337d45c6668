/** Counting facts about duplicate-free sequences of small numbers. */
module Pigeonhole {

  ghost predicate NoDuplicates<T>(s: seq<T>) {
    forall i, j :: 0 <= i < j < |s| ==> s[i] != s[j]
  }

  ghost predicate Below(s: seq<nat>, n: nat) {
    forall i :: 0 <= i < |s| ==> s[i] < n
  }

  lemma NoDuplicatesSnoc<T>(s: seq<T>, x: T)
    ensures NoDuplicates(s + [x]) <==> NoDuplicates(s) && x !in s
  {
    var t := s + [x];
    assert forall i :: 0 <= i < |s| ==> t[i] == s[i];
    if NoDuplicates(t) {
      assert forall i :: 0 <= i < |s| ==> t[i] != t[|s|];
    }
  }

  function Without(s: seq<nat>, k: nat): seq<nat>
    requires k < |s|
  {
    s[..k] + s[k + 1..]
  }

  /** Distinct numbers below n: at most n of them. */
  lemma {:induction false} AtMost(s: seq<nat>, n: nat)
    requires NoDuplicates(s) && Below(s, n)
    ensures |s| <= n
    decreases n
  {
    if s != [] {
      assert s[0] < n;
      if n - 1 in s {
        var k :| 0 <= k < |s| && s[k] == n - 1;
        AtMost(Without(s, k), n - 1);
      } else {
        AtMost(s, n - 1);
      }
    }
  }

  /** ... and if there are exactly n of them, none is missing. */
  lemma {:induction false} Exhaustive(s: seq<nat>, n: nat, x: nat)
    requires NoDuplicates(s) && Below(s, n) && |s| == n
    requires x < n
    ensures x in s
  {
    if x !in s {
      AtMost(s + [x], n);
    }
  }

  /** A sequence that lists every number below n has at least n entries. */
  lemma {:induction false} AtLeast(s: seq<nat>, n: nat)
    requires forall x: nat :: x < n ==> x in s
    ensures |s| >= n
  {
    if n > 0 {
      assert n - 1 in s;
      var k :| 0 <= k < |s| && s[k] == n - 1;
      forall x: nat | x < n - 1 ensures x in Without(s, k) {
        assert x in s;
        var j :| 0 <= j < |s| && s[j] == x;
        assert x == if j < k then Without(s, k)[j] else Without(s, k)[j - 1];
      }
      AtLeast(Without(s, k), n - 1);
    }
  }

  /** More than n numbers below n: two of them are equal. */
  lemma TwoAreEqual(s: seq<nat>, n: nat) returns (i: nat, j: nat)
    requires Below(s, n) && |s| > n
    ensures i < j < |s| && s[i] == s[j]
  {
    assert !NoDuplicates(s) by {
      if NoDuplicates(s) {
        AtMost(s, n);
      }
    }
    i, j :| 0 <= i < j < |s| && s[i] == s[j];
  }
}
