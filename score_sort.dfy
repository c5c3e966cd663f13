/** The ordering step shared by the two searches of app/services/faiss_setup.py:
    Python's `results.sort(key=lambda x: x["score"], reverse=True)`, a stable
    sort by non-increasing key, followed in the trial search by `[:3]`. */
module ScoreSort {

  /** Places `x` before the first element whose key does not exceed its own. */
  function Insert<T>(x: T, s: seq<T>, key: T -> int): seq<T>
  {
    if s == [] || key(s[0]) <= key(x) then [x] + s else [s[0]] + Insert(x, s[1..], key)
  }

  /** Insertion sort from the back: each element goes in front of the equal
      keys of the elements after it, so equal keys keep their order. */
  function SortDesc<T>(s: seq<T>, key: T -> int): seq<T>
  {
    if s == [] then [] else Insert(s[0], SortDesc(s[1..], key), key)
  }

  predicate NonIncreasing<T>(s: seq<T>, key: T -> int)
  {
    forall i, j :: 0 <= i < j < |s| ==> key(s[i]) >= key(s[j])
  }

  /** The elements of `s` whose key is `k`, in order. */
  function WithKey<T>(s: seq<T>, key: T -> int, k: int): seq<T>
  {
    if s == [] then []
    else (if key(s[0]) == k then [s[0]] else []) + WithKey(s[1..], key, k)
  }

  /** The first `n` elements, or all of them: Python `s[:n]`. */
  function Take<T>(s: seq<T>, n: nat): (r: seq<T>)
    ensures |r| == if |s| <= n then |s| else n
    ensures forall i :: 0 <= i < |r| ==> r[i] == s[i]
  {
    if |s| <= n then s else s[..n]
  }

  lemma {:induction false} InsertPermutes<T>(x: T, s: seq<T>, key: T -> int)
    ensures multiset(Insert(x, s, key)) == multiset(s) + multiset{x}
    decreases |s|
  {
    if s != [] && key(s[0]) > key(x) {
      InsertPermutes(x, s[1..], key);
      assert s == [s[0]] + s[1..];
    }
  }

  lemma {:induction false} InsertSorted<T>(x: T, s: seq<T>, key: T -> int)
    requires NonIncreasing(s, key)
    ensures NonIncreasing(Insert(x, s, key), key)
    decreases |s|
  {
    if s != [] && key(s[0]) > key(x) {
      var r := Insert(x, s[1..], key);
      InsertSorted(x, s[1..], key);
      InsertPermutes(x, s[1..], key);
      forall i | 0 <= i < |r|
        ensures key(s[0]) >= key(r[i])
      {
        assert r[i] in multiset(r);
        if r[i] != x {
          assert r[i] in multiset(s[1..]);
          var j :| 0 <= j < |s[1..]| && s[1..][j] == r[i];
          assert s[j + 1] == r[i];
        }
      }
      assert Insert(x, s, key) == [s[0]] + r;
    }
  }

  /** Inserting `x` puts it in front of the elements with its own key. */
  lemma {:induction false} InsertWithKey<T>(x: T, s: seq<T>, key: T -> int, k: int)
    ensures WithKey(Insert(x, s, key), key, k) == (if key(x) == k then [x] else []) + WithKey(s, key, k)
    decreases |s|
  {
    var mine := if key(x) == k then [x] else [];
    if s == [] || key(s[0]) <= key(x) {
      assert ([x] + s)[0] == x && ([x] + s)[1..] == s;
      assert WithKey([x] + s, key, k) == mine + WithKey(s, key, k);
    } else {
      var r := Insert(x, s[1..], key);
      InsertWithKey(x, s[1..], key, k);
      assert ([s[0]] + r)[0] == s[0] && ([s[0]] + r)[1..] == r;
      var head := if key(s[0]) == k then [s[0]] else [];
      assert WithKey([s[0]] + r, key, k) == head + WithKey(r, key, k);
      assert WithKey(s, key, k) == head + WithKey(s[1..], key, k);
      assert key(x) == k ==> head == [];
      ConcatAssocSeq(head, mine, WithKey(s[1..], key, k));
    }
  }

  lemma ConcatAssocSeq<T>(a: seq<T>, b: seq<T>, c: seq<T>)
    ensures a + (b + c) == (a + b) + c
  {
  }

  /** The result is ordered by non-increasing key and is a permutation of the
      input. */
  lemma {:induction false} SortDescSorted<T>(s: seq<T>, key: T -> int)
    ensures NonIncreasing(SortDesc(s, key), key)
    ensures multiset(SortDesc(s, key)) == multiset(s)
    decreases |s|
  {
    if s != [] {
      SortDescSorted(s[1..], key);
      InsertSorted(s[0], SortDesc(s[1..], key), key);
      InsertPermutes(s[0], SortDesc(s[1..], key), key);
      assert s == [s[0]] + s[1..];
    }
  }

  /** Stability: for every key, the elements carrying it appear in the same
      order as in the input. */
  lemma {:induction false} SortDescStable<T>(s: seq<T>, key: T -> int, k: int)
    ensures WithKey(SortDesc(s, key), key, k) == WithKey(s, key, k)
    decreases |s|
  {
    if s != [] {
      SortDescStable(s[1..], key, k);
      InsertWithKey(s[0], SortDesc(s[1..], key), key, k);
    }
  }

  /** The first `n` elements of a sorted list are its top `n`: none of the
      others has a higher key than any of them. */
  lemma SortedTop<T>(s: seq<T>, key: T -> int, n: nat)
    requires NonIncreasing(s, key)
    ensures var r := Take(s, n);
      && NonIncreasing(r, key)
      && multiset(r) <= multiset(s)
      && forall x :: x in multiset(s) - multiset(r) ==> forall i :: 0 <= i < |r| ==> key(x) <= key(r[i])
  {
    var r := Take(s, n);
    var m := |r|;
    var rest := s[m..];
    assert r == s[..m];
    assert s == r + rest;
    assert multiset(s) == multiset(r) + multiset(rest);
    forall x | x in multiset(s) - multiset(r)
      ensures forall i :: 0 <= i < m ==> key(x) <= key(r[i])
    {
      assert x in multiset(rest);
      var k :| 0 <= k < |rest| && rest[k] == x;
      assert s[m + k] == x;
    }
  }

  /** The first `n` of the sorted list are the top `n`: `n` of the elements,
      or all of them when there are fewer, and none of the rest has a higher
      key than any of them. */
  lemma TakeTop<T>(s: seq<T>, key: T -> int, n: nat)
    ensures var r := Take(SortDesc(s, key), n);
      && |r| == (if |s| <= n then |s| else n)
      && NonIncreasing(r, key)
      && multiset(r) <= multiset(s)
      && forall x :: x in multiset(s) - multiset(r) ==> forall i :: 0 <= i < |r| ==> key(x) <= key(r[i])
  {
    var sorted := SortDesc(s, key);
    SortDescSorted(s, key);
    assert |multiset(sorted)| == |multiset(s)|;
    SortedTop(sorted, key, n);
  }
}
