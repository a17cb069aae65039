/** `Array.prototype.sort(compare)` as a stable insertion sort. The comparator
    result is an integer; a comparator that would return NaN is modelled by the
    caller as 0, the value ECMA-262 (section 23.1.3.30.2, SortCompare) treats
    NaN as. The array method is proved equal to the functional `Sort`, and the
    lemmas below say what `Sort` guarantees: it permutes its input, orders it
    by any integer key the comparator agrees with, and keeps elements of equal
    key in their input order. */
module StableSort {

  /** `x` inserted into `s` behind every element that does not compare greater than it. */
  function Insert<T>(s: seq<T>, x: T, cmp: (T, T) -> int): (r: seq<T>)
    ensures |r| == |s| + 1
  {
    if s == [] || cmp(s[|s| - 1], x) <= 0 then s + [x]
    else Insert(s[..|s| - 1], x, cmp) + [s[|s| - 1]]
  }

  /** The elements of `s` inserted one by one, from the first. */
  function Sort<T>(s: seq<T>, cmp: (T, T) -> int): (r: seq<T>)
    ensures |r| == |s|
  {
    if s == [] then [] else Insert(Sort(s[..|s| - 1], cmp), s[|s| - 1], cmp)
  }

  /** Sorts `a` in place; the result is exactly `Sort` of the old contents. */
  method SortInPlace<T>(a: array<T>, cmp: (T, T) -> int)
    modifies a
    ensures a[..] == Sort(old(a[..]), cmp)
  {
    ghost var a0 := a[..];
    var i := 0;
    while i < a.Length
      invariant 0 <= i <= a.Length
      invariant a[..i] == Sort(a0[..i], cmp)
      invariant a[i..] == a0[i..]
    {
      assert a0[..i + 1] == a0[..i] + [a0[i]];
      InsertAt(a, i, cmp);
      i := i + 1;
    }
    assert a[..] == a[..a.Length] && a0 == a0[..a.Length];
  }

  /** The elements of `s` copied into a fresh array and sorted there in place:
      the copy is `Sort(s, cmp)` and a permutation of `s`. */
  method SortedCopy<T>(s: seq<T>, cmp: (T, T) -> int) returns (sorted: seq<T>)
    ensures sorted == Sort(s, cmp)
    ensures multiset(sorted) == multiset(s)
  {
    var a := new T[|s|](i requires 0 <= i < |s| => s[i]);
    assert a[..] == s;
    SortInPlace(a, cmp);
    sorted := a[..];
    SortPermutes(s, cmp);
  }

  /** One pass of the insertion sort: `a[i]` moved left past the greater elements
      of the sorted prefix `a[..i]`; the rest of the array is untouched. */
  method InsertAt<T>(a: array<T>, i: nat, cmp: (T, T) -> int)
    requires i < a.Length
    modifies a
    ensures a[..i + 1] == Insert(old(a[..i]), old(a[i]), cmp)
    ensures a[i + 1..] == old(a[i + 1..])
  {
    ghost var done := a[..i];
    var x := a[i];
    var j := i;
    while j > 0 && cmp(a[j - 1], x) > 0
      invariant 0 <= j <= i
      invariant forall k :: 0 <= k < j ==> a[k] == done[k]
      invariant forall k :: j < k <= i ==> a[k] == done[k - 1]
      invariant forall k :: i < k < a.Length ==> a[k] == old(a[k])
      invariant forall k :: j <= k < i ==> cmp(done[k], x) > 0
    {
      a[j] := a[j - 1];
      j := j - 1;
    }
    a[j] := x;
    InsertSplit(done, j, x, cmp);
    assert a[..i + 1] == done[..j] + [x] + done[j..];
  }

  /** `x` goes in at `j` when every element from `j` on compares greater than
      it and the one before `j` does not. */
  lemma {:induction false} InsertSplit<T>(done: seq<T>, j: nat, x: T, cmp: (T, T) -> int)
    requires j <= |done| && (j == 0 || cmp(done[j - 1], x) <= 0)
    requires forall k :: j <= k < |done| ==> cmp(done[k], x) > 0
    ensures Insert(done, x, cmp) == done[..j] + [x] + done[j..]
    decreases |done|
  {
    if j == |done| {
      assert done[..j] == done && done[j..] == [];
    } else {
      var init, last := done[..|done| - 1], done[|done| - 1];
      assert cmp(last, x) > 0;
      assert Insert(done, x, cmp) == Insert(init, x, cmp) + [last];
      InsertSplit(init, j, x, cmp);
      SplitLast(done, j);
    }
  }

  lemma SplitLast<T>(s: seq<T>, j: nat)
    requires j < |s|
    ensures s[..|s| - 1][..j] + [s[|s| - 1]] == s[..j] + [s[|s| - 1]]
    ensures s[..|s| - 1][j..] + [s[|s| - 1]] == s[j..]
  {
    assert s[..|s| - 1][..j] == s[..j];
  }

  lemma {:induction false} InsertPermutes<T>(s: seq<T>, x: T, cmp: (T, T) -> int)
    ensures multiset(Insert(s, x, cmp)) == multiset(s) + multiset{x}
  {
    if !(s == [] || cmp(s[|s| - 1], x) <= 0) {
      InsertPermutes(s[..|s| - 1], x, cmp);
      assert s == s[..|s| - 1] + [s[|s| - 1]];
    }
  }

  /** The sorted array holds the same elements, each as often as before. */
  lemma {:induction false} SortPermutes<T>(s: seq<T>, cmp: (T, T) -> int)
    ensures multiset(Sort(s, cmp)) == multiset(s)
  {
    if s != [] {
      SortPermutes(s[..|s| - 1], cmp);
      InsertPermutes(Sort(s[..|s| - 1], cmp), s[|s| - 1], cmp);
      assert s == s[..|s| - 1] + [s[|s| - 1]];
    }
  }

  /** On the elements of `s`, the comparator says "greater" exactly when `key` is greater. */
  predicate Agrees<T>(cmp: (T, T) -> int, key: T -> int, s: seq<T>) {
    forall i, j :: 0 <= i < |s| && 0 <= j < |s| ==> (cmp(s[i], s[j]) > 0 <==> key(s[i]) > key(s[j]))
  }

  predicate SortedBy<T>(s: seq<T>, key: T -> int) {
    forall i, j :: 0 <= i < j < |s| ==> key(s[i]) <= key(s[j])
  }

  lemma {:induction false} AgreesOnPart<T>(cmp: (T, T) -> int, key: T -> int, s: seq<T>, t: seq<T>)
    requires Agrees(cmp, key, s)
    requires multiset(t) <= multiset(s)
    ensures Agrees(cmp, key, t)
  {
    forall i, j | 0 <= i < |t| && 0 <= j < |t|
      ensures cmp(t[i], t[j]) > 0 <==> key(t[i]) > key(t[j])
    {
      assert t[i] in multiset(t) && t[j] in multiset(t);
      assert t[i] in s && t[j] in s;
      var i' :| 0 <= i' < |s| && s[i'] == t[i];
      var j' :| 0 <= j' < |s| && s[j'] == t[j];
    }
  }

  /** Inserting keeps every key at or below a bound that all inputs respect. */
  lemma {:induction false} InsertBounded<T>(s: seq<T>, x: T, cmp: (T, T) -> int, key: T -> int, b: int)
    requires forall i :: 0 <= i < |s| ==> key(s[i]) <= b
    requires key(x) <= b
    ensures forall i :: 0 <= i < |s| + 1 ==> key(Insert(s, x, cmp)[i]) <= b
  {
    var r := Insert(s, x, cmp);
    InsertPermutes(s, x, cmp);
    forall i | 0 <= i < |r| ensures key(r[i]) <= b {
      assert r[i] in multiset(r);
      if r[i] != x {
        assert r[i] in multiset(s);
        var k :| 0 <= k < |s| && s[k] == r[i];
      }
    }
  }

  /** Agreement on `s + [x]` carries over to `init + [x]` for the prefix `init` of `s`. */
  lemma {:induction false} AgreesDropLast<T>(cmp: (T, T) -> int, key: T -> int, s: seq<T>, x: T)
    requires s != [] && Agrees(cmp, key, s + [x])
    ensures Agrees(cmp, key, s[..|s| - 1] + [x])
    ensures cmp(s[|s| - 1], x) > 0 <==> key(s[|s| - 1]) > key(x)
  {
    var init, last := s[..|s| - 1], s[|s| - 1];
    assert (s + [x])[|s| - 1] == last && (s + [x])[|s|] == x;
    assert multiset(init + [x]) <= multiset(s + [x]) by {
      assert s == init + [last];
      assert multiset(s + [x]) == multiset(init + [x]) + multiset{last};
    }
    AgreesOnPart(cmp, key, s + [x], init + [x]);
  }

  lemma {:induction false} InsertSorted<T>(s: seq<T>, x: T, cmp: (T, T) -> int, key: T -> int)
    requires SortedBy(s, key)
    requires Agrees(cmp, key, s + [x])
    ensures SortedBy(Insert(s, x, cmp), key)
  {
    if s == [] {
    } else if cmp(s[|s| - 1], x) <= 0 {
      AgreesDropLast(cmp, key, s, x);
    } else {
      var init, last := s[..|s| - 1], s[|s| - 1];
      AgreesDropLast(cmp, key, s, x);
      InsertSorted(init, x, cmp, key);
      InsertBounded(init, x, cmp, key, key(last));
    }
  }

  /** With a comparator that agrees with an integer key, the result is ordered by that key. */
  lemma {:induction false} SortSorted<T>(s: seq<T>, cmp: (T, T) -> int, key: T -> int)
    requires Agrees(cmp, key, s)
    ensures SortedBy(Sort(s, cmp), key)
  {
    if s != [] {
      var init, last := s[..|s| - 1], s[|s| - 1];
      assert s == init + [last];
      AgreesOnPart(cmp, key, s, init);
      SortSorted(init, cmp, key);
      SortPermutes(init, cmp);
      AgreesOnPart(cmp, key, s, Sort(init, cmp) + [last]);
      InsertSorted(Sort(init, cmp), last, cmp, key);
    }
  }

  /** The elements of `s` whose key is `k`, in order. */
  function WithKey<T>(s: seq<T>, key: T -> int, k: int): (r: seq<T>)
    ensures |r| <= |s|
  {
    if s == [] then []
    else WithKey(s[..|s| - 1], key, k) + (if key(s[|s| - 1]) == k then [s[|s| - 1]] else [])
  }

  lemma {:induction false} WithKeyAppend<T>(s: seq<T>, t: seq<T>, key: T -> int, k: int)
    ensures WithKey(s + t, key, k) == WithKey(s, key, k) + WithKey(t, key, k)
  {
    if t != [] {
      assert (s + t)[..|s + t| - 1] == s + t[..|t| - 1];
      WithKeyAppend(s, t[..|t| - 1], key, k);
    } else {
      assert s + t == s;
    }
  }

  lemma {:induction false} InsertStable<T>(s: seq<T>, x: T, cmp: (T, T) -> int, key: T -> int, k: int)
    requires Agrees(cmp, key, s + [x])
    ensures WithKey(Insert(s, x, cmp), key, k) == WithKey(s + [x], key, k)
  {
    if s != [] && cmp(s[|s| - 1], x) > 0 {
      AgreesDropLast(cmp, key, s, x);
      InsertStable(s[..|s| - 1], x, cmp, key, k);
      InsertPastGreater(s, x, cmp, key, k);
    }
  }

  /** The step of `InsertStable` where `x` moves in front of a last element of greater key. */
  lemma {:induction false} InsertPastGreater<T>(s: seq<T>, x: T, cmp: (T, T) -> int, key: T -> int, k: int)
    requires s != [] && cmp(s[|s| - 1], x) > 0 && key(s[|s| - 1]) > key(x)
    requires WithKey(Insert(s[..|s| - 1], x, cmp), key, k) == WithKey(s[..|s| - 1] + [x], key, k)
    ensures WithKey(Insert(s, x, cmp), key, k) == WithKey(s + [x], key, k)
  {
    var init, last := s[..|s| - 1], s[|s| - 1];
    var wx, wl := WithKey([x], key, k), WithKey([last], key, k);
    assert wx == [] || wl == [] by {
      assert wx == if key(x) == k then [x] else [];
      assert wl == if key(last) == k then [last] else [];
    }
    calc {
      WithKey(Insert(s, x, cmp), key, k);
      { WithKeyAppend(Insert(init, x, cmp), [last], key, k); }
      WithKey(Insert(init, x, cmp), key, k) + wl;
      { WithKeyAppend(init, [x], key, k); }
      WithKey(init, key, k) + wx + wl;
      WithKey(init, key, k) + wl + wx;
      { WithKeyAppend(init, [last], key, k); assert s == init + [last]; }
      WithKey(s, key, k) + wx;
      { WithKeyAppend(s, [x], key, k); }
      WithKey(s + [x], key, k);
    }
  }

  /** Stability: the elements of each key class keep their input order. */
  lemma {:induction false} SortStable<T>(s: seq<T>, cmp: (T, T) -> int, key: T -> int, k: int)
    requires Agrees(cmp, key, s)
    ensures WithKey(Sort(s, cmp), key, k) == WithKey(s, key, k)
  {
    if s != [] {
      var init, last := s[..|s| - 1], s[|s| - 1];
      assert s == init + [last];
      AgreesOnPart(cmp, key, s, init);
      SortStable(init, cmp, key, k);
      SortPermutes(init, cmp);
      AgreesOnPart(cmp, key, s, Sort(init, cmp) + [last]);
      InsertStable(Sort(init, cmp), last, cmp, key, k);
      WithKeyAppend(Sort(init, cmp), [last], key, k);
      WithKeyAppend(init, [last], key, k);
    }
  }

  /** `s.map(f)`. */
  function Map<T, U>(s: seq<T>, f: T -> U): (r: seq<U>)
    ensures |r| == |s|
    ensures forall i :: 0 <= i < |s| ==> r[i] == f(s[i])
  {
    seq(|s|, i requires 0 <= i < |s| => f(s[i]))
  }

  lemma MapSnoc<T>(s: seq<T>, x: T, f: T -> T)
    ensures Map(s + [x], f) == Map(s, f) + [f(x)]
  {
  }

  lemma {:induction false} InsertMap<T>(s: seq<T>, x: T, cmp: (T, T) -> int, f: T -> T)
    requires forall a, b :: cmp(f(a), f(b)) == cmp(a, b)
    ensures Insert(Map(s, f), f(x), cmp) == Map(Insert(s, x, cmp), f)
  {
    if s == [] || cmp(s[|s| - 1], x) <= 0 {
      MapSnoc(s, x, f);
    } else {
      var init, last := s[..|s| - 1], s[|s| - 1];
      assert Map(s, f)[..|s| - 1] == Map(init, f);
      InsertMap(init, x, cmp, f);
      MapSnoc(Insert(init, x, cmp), last, f);
    }
  }

  /** Mapping with a function the comparator cannot see commutes with sorting. */
  lemma {:induction false} SortMap<T>(s: seq<T>, cmp: (T, T) -> int, f: T -> T)
    requires forall a, b :: cmp(f(a), f(b)) == cmp(a, b)
    ensures Sort(Map(s, f), cmp) == Map(Sort(s, cmp), f)
  {
    if s != [] {
      var init := s[..|s| - 1];
      assert Map(s, f)[..|s| - 1] == Map(init, f);
      SortMap(init, cmp, f);
      InsertMap(Sort(init, cmp), s[|s| - 1], cmp, f);
    }
  }
}
