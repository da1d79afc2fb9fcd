/** Generic facts about sequences used by the grouping code: distinctness,
    occurrence counts and the first-occurrence order of a sequence's values. */
module Sequences {

  /** No value occurs twice in s. */
  predicate Distinct<T(==)>(s: seq<T>)
  {
    forall i, j :: 0 <= i < j < |s| ==> s[i] != s[j]
  }

  /** How often x occurs in s. */
  function Count<T(==)>(s: seq<T>, x: T): (n: nat)
    ensures n > 0 <==> x in s
    ensures n <= |s|
    decreases |s|
  {
    if |s| == 0 then 0
    else (if s[0] == x then 1 else 0) + Count(s[1..], x)
  }

  /** A value that occurs in a duplicate-free sequence occurs exactly once. */
  lemma {:induction false} DistinctCount<T>(s: seq<T>, x: T)
    requires Distinct(s)
    ensures Count(s, x) == if x in s then 1 else 0
  {
    if |s| > 0 {
      assert Distinct(s[1..]) by {
        forall i, j | 0 <= i < j < |s[1..]| ensures s[1..][i] != s[1..][j] {
          assert s[1..][i] == s[i + 1] && s[1..][j] == s[j + 1];
        }
      }
      DistinctCount(s[1..], x);
      if s[0] == x {
        forall k | 0 <= k < |s[1..]| ensures s[1..][k] != x {
          assert s[1..][k] == s[k + 1];
        }
      }
    }
  }

  /** The position of the first occurrence of x in s. */
  function FirstIndex<T(==)>(s: seq<T>, x: T): (i: nat)
    requires x in s
    ensures i < |s| && s[i] == x
    ensures forall j :: 0 <= j < i ==> s[j] != x
    decreases |s|
  {
    if s[0] == x then 0 else 1 + FirstIndex(s[1..], x)
  }

  /** The values of s without repetitions, in the order in which each first
      occurs in s. */
  function FirstSeen<T(==)>(s: seq<T>): (r: seq<T>)
    ensures Distinct(r)
    ensures forall i :: 0 <= i < |r| ==> r[i] in s
    ensures forall i :: 0 <= i < |s| ==> s[i] in r
    decreases |s|
  {
    if |s| == 0 then []
    else
      var pre := FirstSeen(s[..|s| - 1]);
      assert s == s[..|s| - 1] + [s[|s| - 1]];
      if s[|s| - 1] in pre then pre else pre + [s[|s| - 1]]
  }

  /** FirstSeen lists values in the order of their first occurrences. */
  lemma {:induction false} FirstSeenOrder<T>(s: seq<T>, i: nat, j: nat)
    requires i < j < |FirstSeen(s)|
    ensures FirstIndex(s, FirstSeen(s)[i]) < FirstIndex(s, FirstSeen(s)[j])
    decreases |s|
  {
    var n := |s|;
    var p := s[..n - 1];
    var pre := FirstSeen(p);
    FirstSeenStep(s);
    var x, y := FirstSeen(s)[i], FirstSeen(s)[j];
    assert x == pre[i] && x in p;
    if j < |pre| {
      assert y == pre[j] && y in p;
      FirstSeenOrder(p, i, j);
      OrderInPrefix(s, x, y);
    } else {
      OrderBeforeLast(s, x);
    }
  }

  /** One more element either is already listed or is appended. */
  lemma FirstSeenStep<T>(s: seq<T>)
    requires |s| > 0
    ensures FirstSeen(s) == if s[|s| - 1] in FirstSeen(s[..|s| - 1]) then FirstSeen(s[..|s| - 1]) else FirstSeen(s[..|s| - 1]) + [s[|s| - 1]]
    ensures |FirstSeen(s)| > |FirstSeen(s[..|s| - 1])| ==> s[|s| - 1] !in s[..|s| - 1]
  {
  }

  /** Extending a sequence keeps the order of first occurrences in its prefix. */
  lemma OrderInPrefix<T>(s: seq<T>, x: T, y: T)
    requires |s| > 0 && x in s[..|s| - 1] && y in s[..|s| - 1]
    requires FirstIndex(s[..|s| - 1], x) < FirstIndex(s[..|s| - 1], y)
    ensures FirstIndex(s, x) < FirstIndex(s, y)
  {
    var p := s[..|s| - 1];
    var i, j := FirstIndex(p, x), FirstIndex(p, y);
    assert p[i] == s[i] && p[j] == s[j];
    forall k | 0 <= k < j ensures s[k] != y {
      assert p[k] == s[k];
    }
    assert FirstIndex(s, x) <= i;
  }

  /** A value of the prefix first occurs before a last element that is new. */
  lemma OrderBeforeLast<T>(s: seq<T>, x: T)
    requires |s| > 0 && x in s[..|s| - 1] && s[|s| - 1] !in s[..|s| - 1]
    ensures FirstIndex(s, x) < FirstIndex(s, s[|s| - 1])
  {
    FirstIndexOfPrefix(s, |s| - 1, x);
    forall k | 0 <= k < |s| - 1 ensures s[k] != s[|s| - 1] {
      assert s[..|s| - 1][k] == s[k];
    }
  }

  /** A value already present in a prefix has the same first index in the whole. */
  lemma {:induction false} FirstIndexOfPrefix<T>(s: seq<T>, k: nat, x: T)
    requires k <= |s| && x in s[..k]
    ensures FirstIndex(s, x) == FirstIndex(s[..k], x) < k
  {
    var i := FirstIndex(s[..k], x);
    assert s[i] == x;
    var f := FirstIndex(s, x);
    assert f <= i;
    assert s[..k][f] == s[f];
  }
}
