/** Generic facts about sequences and about dictionaries built by repeated assignment. */
module Sequences {

  /** `a` is `b` with zero or more elements deleted, the rest kept in order. */
  predicate IsSubsequence<T(==)>(a: seq<T>, b: seq<T>)
    decreases |b|
  {
    if a == [] then true
    else if b == [] then false
    else (a[0] == b[0] && IsSubsequence(a[1..], b[1..])) || IsSubsequence(a, b[1..])
  }

  lemma {:induction false} SubsequenceShorter<T>(a: seq<T>, b: seq<T>)
    requires IsSubsequence(a, b)
    ensures |a| <= |b|
    decreases |b|
  {
    if a != [] {
      if a[0] == b[0] && IsSubsequence(a[1..], b[1..]) {
        SubsequenceShorter(a[1..], b[1..]);
      } else {
        SubsequenceShorter(a, b[1..]);
      }
    }
  }

  lemma {:induction false} SubsequenceMembers<T>(a: seq<T>, b: seq<T>)
    requires IsSubsequence(a, b)
    ensures forall x :: x in a ==> x in b
    decreases |b|
  {
    if a != [] {
      if a[0] == b[0] && IsSubsequence(a[1..], b[1..]) {
        SubsequenceMembers(a[1..], b[1..]);
        assert forall x :: x in a ==> x == a[0] || x in a[1..];
      } else {
        SubsequenceMembers(a, b[1..]);
      }
    }
  }

  lemma {:induction false} SubsequenceTransitive<T>(a: seq<T>, b: seq<T>, c: seq<T>)
    requires IsSubsequence(a, b) && IsSubsequence(b, c)
    ensures IsSubsequence(a, c)
    decreases |c|
  {
    if a != [] {
      assert b != [] && c != [];
      if b[0] == c[0] && IsSubsequence(b[1..], c[1..]) {
        if a[0] == b[0] && IsSubsequence(a[1..], b[1..]) {
          SubsequenceTransitive(a[1..], b[1..], c[1..]);
        } else {
          SubsequenceTransitive(a, b[1..], c[1..]);
        }
      } else {
        SubsequenceTransitive(a, b, c[1..]);
      }
    }
  }

  lemma {:induction false} SubsequenceReflexive<T>(s: seq<T>)
    ensures IsSubsequence(s, s)
    decreases |s|
  {
    if s != [] {
      SubsequenceReflexive(s[1..]);
    }
  }

  /** A prefix (Python's `s[:n]`) is a subsequence. */
  lemma {:induction false} TakeIsSubsequence<T>(s: seq<T>, n: nat)
    requires n <= |s|
    ensures IsSubsequence(s[..n], s)
    decreases |s|
  {
    if n > 0 {
      assert s[..n][1..] == s[1..][..n - 1];
      TakeIsSubsequence(s[1..], n - 1);
    }
  }

  /**
   * The dictionary Python builds by running `d[k] = v` for each pair in order, starting
   * from `{}`: a later assignment to the same key overwrites an earlier one.
   */
  function LastWins<K, V>(pairs: seq<(K, V)>): map<K, V>
    decreases |pairs|
  {
    if pairs == [] then map[]
    else LastWins(pairs[..|pairs| - 1])[pairs[|pairs| - 1].0 := pairs[|pairs| - 1].1]
  }

  /** The dictionary holds exactly the assigned keys, each with the value of its last assignment. */
  lemma {:induction false} LastWinsContents<K, V>(pairs: seq<(K, V)>)
    ensures forall i :: 0 <= i < |pairs| ==> pairs[i].0 in LastWins(pairs)
    ensures forall k :: k in LastWins(pairs) ==> IsLastAssignment(pairs, k, LastWins(pairs)[k])
    decreases |pairs|
  {
    if pairs != [] {
      var init := pairs[..|pairs| - 1];
      var last := pairs[|pairs| - 1];
      var m := LastWins(pairs);
      LastWinsContents(init);
      forall k | k in m ensures IsLastAssignment(pairs, k, m[k]) {
        if k == last.0 {
          assert pairs[|pairs| - 1] == (k, m[k]);
        } else {
          var i :| 0 <= i < |init| && init[i] == (k, m[k]) && forall j :: i < j < |init| ==> init[j].0 != k;
          assert pairs[i] == init[i];
          forall j | i < j < |pairs| ensures pairs[j].0 != k {
            if j < |init| { assert pairs[j] == init[j]; }
          }
        }
      }
      forall i | 0 <= i < |pairs| ensures pairs[i].0 in m {
        if i < |init| { assert pairs[i] == init[i]; }
      }
    }
  }

  /** `(k, v)` is the last assignment to `k` among `pairs`. */
  ghost predicate IsLastAssignment<K, V>(pairs: seq<(K, V)>, k: K, v: V) {
    exists i :: 0 <= i < |pairs| && pairs[i] == (k, v) && forall j :: i < j < |pairs| ==> pairs[j].0 != k
  }

  /**
   * The order in which Python iterates the dictionary `LastWins(pairs)`: each key once, at the
   * position of its first assignment.
   */
  function InsertionOrder<K(==), V>(pairs: seq<(K, V)>): seq<K>
    decreases |pairs|
  {
    if pairs == [] then []
    else
      var keys := InsertionOrder(pairs[..|pairs| - 1]);
      var k := pairs[|pairs| - 1].0;
      if k in keys then keys else keys + [k]
  }

  /** The iteration order lists every assigned key, only assigned keys, and each key once. */
  lemma {:induction false} InsertionOrderContents<K, V>(pairs: seq<(K, V)>)
    ensures forall i :: 0 <= i < |pairs| ==> pairs[i].0 in InsertionOrder(pairs)
    ensures forall k :: k in InsertionOrder(pairs) ==> k in LastWins(pairs)
    ensures forall i, j :: 0 <= i < j < |InsertionOrder(pairs)| ==> InsertionOrder(pairs)[i] != InsertionOrder(pairs)[j]
    decreases |pairs|
  {
    if pairs != [] {
      var init := pairs[..|pairs| - 1];
      InsertionOrderContents(init);
      forall i | 0 <= i < |pairs| ensures pairs[i].0 in InsertionOrder(pairs) {
        if i < |init| { assert pairs[i] == init[i]; }
      }
    }
  }
}
