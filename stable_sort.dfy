/** Python's `sorted(xs, key=key, reverse=True)` on an integer key: a stable
    sort into non-increasing key order. Stability with `reverse=True` means
    that elements with equal keys keep their original relative order.

    The sort is defined here as an insertion sort, and `IsStableSortDesc`
    states what Python promises of its result. `SortDescIsStableSortDesc`
    shows that the insertion sort keeps that promise, and
    `StableSortDescUnique` that only one list does, so the choice of algorithm
    does not change the result. */
module StableSort {

  /** Non-increasing by key. */
  ghost predicate SortedDesc<T>(s: seq<T>, key: T -> int) {
    forall i, j :: 0 <= i < j < |s| ==> key(s[i]) >= key(s[j])
  }

  /** The elements of `s` whose key is `k`, in their order in `s`. */
  function WithKey<T>(s: seq<T>, key: T -> int, k: int): seq<T> {
    if s == [] then []
    else Keep(s[0], key, k) + WithKey(s[1..], key, k)
  }

  /** `[x]` when `x` has key `k`, otherwise nothing. */
  function Keep<T>(x: T, key: T -> int, k: int): seq<T> {
    if key(x) == k then [x] else []
  }

  /** `output` is what a stable non-increasing sort of `input` gives: it is
      ordered by key, and for every key the elements carrying it appear in
      the same order as in `input` (which also makes it a permutation). */
  ghost predicate IsStableSortDesc<T>(input: seq<T>, output: seq<T>, key: T -> int) {
    && SortedDesc(output, key)
    && forall k :: WithKey(output, key, k) == WithKey(input, key, k)
  }

  /** Places `x` in front of the first element whose key is not larger. */
  function Insert<T>(x: T, s: seq<T>, key: T -> int): seq<T> {
    if s == [] || key(s[0]) <= key(x) then [x] + s
    else [s[0]] + Insert(x, s[1..], key)
  }

  function SortDesc<T>(s: seq<T>, key: T -> int): seq<T> {
    if s == [] then [] else Insert(s[0], SortDesc(s[1..], key), key)
  }

  lemma {:induction false} InsertPermutes<T>(x: T, s: seq<T>, key: T -> int)
    ensures multiset(Insert(x, s, key)) == multiset(s) + multiset{x}
    ensures |Insert(x, s, key)| == |s| + 1
  {
    if s != [] && key(s[0]) > key(x) {
      InsertPermutes(x, s[1..], key);
      assert s == [s[0]] + s[1..];
    }
  }

  lemma {:induction false} InsertSorted<T>(x: T, s: seq<T>, key: T -> int)
    requires SortedDesc(s, key)
    ensures var r := Insert(x, s, key);
      && SortedDesc(r, key)
      && r != []
      && (key(r[0]) == key(x) || (s != [] && key(r[0]) == key(s[0])))
  {
    if s != [] && key(s[0]) > key(x) {
      SortedTail(s, key);
      InsertSorted(x, s[1..], key);
      var t := Insert(x, s[1..], key);
      assert key(s[0]) >= key(t[0]) by {
        assert |s| > 1 ==> key(s[0]) >= key(s[1]);
      }
      var r := [s[0]] + t;
      forall i, j | 0 <= i < j < |r| ensures key(r[i]) >= key(r[j]) {
        assert r[j] == t[j - 1];
        if i > 0 {
          assert r[i] == t[i - 1];
        } else {
          assert key(t[0]) >= key(t[j - 1]) || j - 1 == 0;
        }
      }
    }
  }

  lemma {:induction false} WithKeyAppend<T>(a: seq<T>, b: seq<T>, key: T -> int, k: int)
    ensures WithKey(a + b, key, k) == WithKey(a, key, k) + WithKey(b, key, k)
  {
    if a != [] {
      assert (a + b)[0] == a[0] && (a + b)[1..] == a[1..] + b;
      WithKeyAppend(a[1..], b, key, k);
      calc {
        WithKey(a + b, key, k);
        Keep(a[0], key, k) + WithKey(a[1..] + b, key, k);
        Keep(a[0], key, k) + (WithKey(a[1..], key, k) + WithKey(b, key, k));
        (Keep(a[0], key, k) + WithKey(a[1..], key, k)) + WithKey(b, key, k);
      }
    } else {
      assert a + b == b;
    }
  }

  lemma WithKeySingle<T>(x: T, key: T -> int, k: int)
    ensures WithKey([x], key, k) == Keep(x, key, k)
  {
    assert [x][1..] == [];
  }

  lemma {:induction false} InsertWithKey<T>(x: T, s: seq<T>, key: T -> int, k: int)
    ensures WithKey(Insert(x, s, key), key, k) == Keep(x, key, k) + WithKey(s, key, k)
  {
    WithKeySingle(x, key, k);
    if s == [] || key(s[0]) <= key(x) {
      WithKeyAppend([x], s, key, k);
    } else {
      var rest := Insert(x, s[1..], key);
      WithKeySingle(s[0], key, k);
      WithKeyAppend([s[0]], rest, key, k);
      InsertWithKey(x, s[1..], key, k);
      WithKeyAppend([s[0]], s[1..], key, k);
      assert [s[0]] + s[1..] == s;
      // s[0] and x have different keys, so at most one of them is kept
      assert Keep(s[0], key, k) + Keep(x, key, k) == Keep(x, key, k) + Keep(s[0], key, k);
    }
  }

  /** The insertion sort keeps Python's promise, and keeps length and
      multiset. */
  lemma {:induction false} SortDescIsStableSortDesc<T>(s: seq<T>, key: T -> int)
    ensures IsStableSortDesc(s, SortDesc(s, key), key)
    ensures |SortDesc(s, key)| == |s|
    ensures multiset(SortDesc(s, key)) == multiset(s)
  {
    if s != [] {
      var t := SortDesc(s[1..], key);
      SortDescIsStableSortDesc(s[1..], key);
      InsertSorted(s[0], t, key);
      InsertPermutes(s[0], t, key);
      assert s == [s[0]] + s[1..];
      forall k ensures WithKey(SortDesc(s, key), key, k) == WithKey(s, key, k) {
        InsertWithKey(s[0], t, key, k);
      }
    }
  }

  lemma {:induction false} WithKeyMembers<T>(s: seq<T>, key: T -> int, k: int, x: T)
    ensures x in WithKey(s, key, k) <==> x in s && key(x) == k
  {
    if s != [] {
      WithKeyMembers(s[1..], key, k, x);
      assert s == [s[0]] + s[1..];
    }
  }

  lemma HeadIsLargest<T>(s: seq<T>, key: T -> int, x: T)
    ensures SortedDesc(s, key) && x in s ==> key(x) <= key(s[0])
  {
    if SortedDesc(s, key) && x in s {
      var j :| 0 <= j < |s| && s[j] == x;
      assert j == 0 || key(s[0]) >= key(s[j]);
    }
  }

  lemma SortedTail<T>(s: seq<T>, key: T -> int)
    requires SortedDesc(s, key) && s != []
    ensures SortedDesc(s[1..], key)
  {
    forall i, j | 0 <= i < j < |s| - 1 ensures key(s[1..][i]) >= key(s[1..][j]) {
      assert s[1..][i] == s[i + 1] && s[1..][j] == s[j + 1];
    }
  }

  lemma EmptyKeysEmpty<T>(a: seq<T>, b: seq<T>, key: T -> int)
    requires a == []
    requires forall k :: WithKey(a, key, k) == WithKey(b, key, k)
    ensures b == []
  {
    if b != [] {
      assert WithKey(b, key, key(b[0])) == WithKey(a, key, key(b[0]));
    }
  }

  /** Two sorted lists with the same elements per key start alike, and their
      tails again have the same elements per key. */
  lemma SameHead<T>(a: seq<T>, b: seq<T>, key: T -> int)
    requires SortedDesc(a, key) && SortedDesc(b, key) && a != [] && b != []
    requires forall k :: WithKey(a, key, k) == WithKey(b, key, k)
    ensures a[0] == b[0]
    ensures forall k :: WithKey(a[1..], key, k) == WithKey(b[1..], key, k)
  {
    var ka, kb := key(a[0]), key(b[0]);
    WithKeyMembers(a, key, ka, a[0]);
    WithKeyMembers(b, key, ka, a[0]);
    WithKeyMembers(b, key, kb, b[0]);
    WithKeyMembers(a, key, kb, b[0]);
    HeadIsLargest(a, key, b[0]);
    HeadIsLargest(b, key, a[0]);
    assert ka == kb;
    var wa, wb := WithKey(a, key, ka), WithKey(b, key, ka);
    assert wa == [a[0]] + WithKey(a[1..], key, ka);
    assert wb == [b[0]] + WithKey(b[1..], key, ka);
    assert wa[0] == a[0] && wb[0] == b[0];
    forall k ensures WithKey(a[1..], key, k) == WithKey(b[1..], key, k) {
      if k == ka {
        assert wa[1..] == WithKey(a[1..], key, k);
        assert wb[1..] == WithKey(b[1..], key, k);
      } else {
        assert WithKey(a, key, k) == WithKey(a[1..], key, k);
        assert WithKey(b, key, k) == WithKey(b[1..], key, k);
      }
    }
  }

  lemma {:induction false} SortedEqualKeysEqual<T>(a: seq<T>, b: seq<T>, key: T -> int)
    requires SortedDesc(a, key) && SortedDesc(b, key)
    requires forall k :: WithKey(a, key, k) == WithKey(b, key, k)
    ensures a == b
    decreases |a|
  {
    if a == [] {
      EmptyKeysEmpty(a, b, key);
    } else if b == [] {
      EmptyKeysEmpty(b, a, key);
    } else {
      SameHead(a, b, key);
      SortedTail(a, key);
      SortedTail(b, key);
      SortedEqualKeysEqual(a[1..], b[1..], key);
      assert a == [a[0]] + a[1..] && b == [b[0]] + b[1..];
    }
  }

  /** Only one list is a stable non-increasing sort of a given list. */
  lemma StableSortDescUnique<T>(input: seq<T>, a: seq<T>, b: seq<T>, key: T -> int)
    requires IsStableSortDesc(input, a, key) && IsStableSortDesc(input, b, key)
    ensures a == b
  {
    SortedEqualKeysEqual(a, b, key);
  }
}
