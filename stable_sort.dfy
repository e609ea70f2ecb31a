/** A stable sort into descending key order: the meaning of
    `list.sort(key=..., reverse=True)`, whose ties keep their original order. */
module StableSort {
  import opened Sequences

  /** Keys never increase along `s`. */
  predicate NonIncreasing<T>(s: seq<T>, key: T -> real) {
    forall i, j :: 0 <= i < j < |s| ==> key(s[i]) >= key(s[j])
  }

  function KeyIs<T>(key: T -> real, k: real): T -> bool {
    x => key(x) == k
  }

  /** The elements of `s` whose key is `k`, in their order in `s`. */
  function WithKey<T>(s: seq<T>, key: T -> real, k: real): seq<T> {
    Keep(s, KeyIs(key, k))
  }

  /** `x` placed into `t` just after the last element whose key is at least `x`'s. */
  function InsertDesc<T>(t: seq<T>, x: T, key: T -> real): (r: seq<T>)
    ensures |r| == |t| + 1
    decreases |t|
  {
    if t == [] || key(t[|t| - 1]) >= key(x) then t + [x]
    else InsertDesc(t[..|t| - 1], x, key) + [t[|t| - 1]]
  }

  /** Insertion sort: each element in turn joins the already sorted prefix, behind
      every element with an equal key. */
  function SortDesc<T>(s: seq<T>, key: T -> real): (r: seq<T>)
    ensures |r| == |s|
    decreases |s|
  {
    if s == [] then [] else InsertDesc(SortDesc(s[..|s| - 1], key), s[|s| - 1], key)
  }

  lemma {:induction false} InsertDescPermutation<T>(t: seq<T>, x: T, key: T -> real)
    ensures multiset(InsertDesc(t, x, key)) == multiset(t) + multiset{x}
  {
    if !(t == [] || key(t[|t| - 1]) >= key(x)) {
      InsertDescPermutation(t[..|t| - 1], x, key);
      assert t == t[..|t| - 1] + [t[|t| - 1]];
    }
  }

  lemma {:induction false} InsertDescOrdered<T>(t: seq<T>, x: T, key: T -> real)
    requires NonIncreasing(t, key)
    ensures NonIncreasing(InsertDesc(t, x, key), key)
  {
    if !(t == [] || key(t[|t| - 1]) >= key(x)) {
      var init, last := t[..|t| - 1], t[|t| - 1];
      InsertDescOrdered(init, x, key);
      InsertDescPermutation(init, x, key);
      var u := InsertDesc(init, x, key);
      forall i | 0 <= i < |u|
        ensures key(u[i]) >= key(last)
      {
        assert u[i] in multiset(u);
        assert u[i] == x || u[i] in init;
      }
    }
  }

  lemma {:induction false} InsertDescWithKey<T>(t: seq<T>, x: T, key: T -> real, k: real)
    ensures WithKey(InsertDesc(t, x, key), key, k) == WithKey(t, key, k) + WithKey([x], key, k)
  {
    var p := KeyIs(key, k);
    if t == [] || key(t[|t| - 1]) >= key(x) {
      KeepConcat(t, [x], p);
    } else {
      var init, last := t[..|t| - 1], t[|t| - 1];
      InsertDescWithKey(init, x, key, k);
      KeepConcat(InsertDesc(init, x, key), [last], p);
      KeepConcat(init, [last], p);
      KeepConcat(init, [x], p);
      assert t == init + [last];
      // `last` and `x` have different keys, so at most one of them is kept
      assert Keep([x], p) == [] || Keep([last], p) == [];
    }
  }

  /** The sort result is in descending key order. */
  lemma {:induction false} SortDescOrdered<T>(s: seq<T>, key: T -> real)
    ensures NonIncreasing(SortDesc(s, key), key)
  {
    if s != [] {
      SortDescOrdered(s[..|s| - 1], key);
      InsertDescOrdered(SortDesc(s[..|s| - 1], key), s[|s| - 1], key);
    }
  }

  /** The sort result is a rearrangement of its input: nothing lost, nothing duplicated. */
  lemma {:induction false} SortDescPermutation<T>(s: seq<T>, key: T -> real)
    ensures multiset(SortDesc(s, key)) == multiset(s)
  {
    if s != [] {
      SortDescPermutation(s[..|s| - 1], key);
      InsertDescPermutation(SortDesc(s[..|s| - 1], key), s[|s| - 1], key);
      assert s == s[..|s| - 1] + [s[|s| - 1]];
    }
  }

  /** Stability: the elements sharing any one key appear in the result in exactly
      the order they had in the input. */
  lemma {:induction false} SortDescStable<T>(s: seq<T>, key: T -> real, k: real)
    ensures WithKey(SortDesc(s, key), key, k) == WithKey(s, key, k)
  {
    if s != [] {
      var init, last := s[..|s| - 1], s[|s| - 1];
      SortDescStable(init, key, k);
      InsertDescWithKey(SortDesc(init, key), last, key, k);
      KeepConcat(init, [last], KeyIs(key, k));
      assert s == init + [last];
    }
  }

  lemma WithKeySnoc<T>(s: seq<T>, x: T, key: T -> real, k: real)
    ensures WithKey(s + [x], key, k) == WithKey(s, key, k) + (if key(x) == k then [x] else [])
  {
    KeepConcat(s, [x], KeyIs(key, k));
  }

  lemma InWithKey<T>(s: seq<T>, key: T -> real, x: T)
    requires x in s
    ensures x in WithKey(s, key, key(x))
  {
    var i :| 0 <= i < |s| && s[i] == x;
  }

  lemma FromWithKey<T>(s: seq<T>, key: T -> real, k: real, x: T)
    requires x in WithKey(s, key, k)
    ensures x in s && key(x) == k
  {
    var out := WithKey(s, key, k);
    var i :| 0 <= i < |out| && out[i] == x;
  }

  /** In descending key order the last element carries the smallest key, so two such
      arrangements with the same keyed groups end in elements of the same key. */
  lemma LastKeysAgree<T>(r: seq<T>, q: seq<T>, key: T -> real)
    requires NonIncreasing(r, key) && NonIncreasing(q, key)
    requires r != [] && q != []
    requires WithKey(r, key, key(r[|r| - 1])) == WithKey(q, key, key(r[|r| - 1]))
    requires WithKey(r, key, key(q[|q| - 1])) == WithKey(q, key, key(q[|q| - 1]))
    ensures key(r[|r| - 1]) == key(q[|q| - 1])
  {
    var a, b := r[|r| - 1], q[|q| - 1];
    InWithKey(r, key, a);
    FromWithKey(q, key, key(a), a);
    InWithKey(q, key, b);
    FromWithKey(r, key, key(b), b);
  }

  /** Equal keyed groups for the key of the last elements make the last elements equal. */
  lemma LastElementsAgree<T>(r: seq<T>, q: seq<T>, key: T -> real)
    requires r != [] && q != [] && key(r[|r| - 1]) == key(q[|q| - 1])
    requires WithKey(r, key, key(r[|r| - 1])) == WithKey(q, key, key(r[|r| - 1]))
    ensures r[|r| - 1] == q[|q| - 1]
  {
    var r', a := r[..|r| - 1], r[|r| - 1];
    var q', b := q[..|q| - 1], q[|q| - 1];
    assert r == r' + [a] && q == q' + [b];
    WithKeySnoc(r', a, key, key(a));
    WithKeySnoc(q', b, key, key(a));
    var wr := WithKey(r', key, key(a));
    assert a == (wr + [a])[|wr|];
  }

  /** Removing the same last element from both sides keeps the keyed groups equal. */
  lemma DropLastGroups<T>(r': seq<T>, q': seq<T>, x: T, key: T -> real, k: real)
    requires WithKey(r' + [x], key, k) == WithKey(q' + [x], key, k)
    ensures WithKey(r', key, k) == WithKey(q', key, k)
  {
    WithKeySnoc(r', x, key, k);
    WithKeySnoc(q', x, key, k);
    if key(x) == k {
      var wr, wq := WithKey(r', key, k), WithKey(q', key, k);
      assert wr + [x] == wq + [x];
      assert |wr| == |wq|;
      assert wr == (wr + [x])[..|wr|] && wq == (wq + [x])[..|wq|];
    } else {
      assert WithKey(r', key, k) + [] == WithKey(r', key, k);
      assert WithKey(q', key, k) + [] == WithKey(q', key, k);
    }
  }

  /** A non-empty sequence has a non-empty group: that of its first element's key. */
  lemma FirstGroupNonEmpty<T>(q: seq<T>, key: T -> real)
    requires q != []
    ensures WithKey(q, key, key(q[0])) != []
  {
    InWithKey(q, key, q[0]);
  }

  /** The induction step: both sides end in the same element, and what precedes it has
      equal keyed groups. */
  lemma SameGroupsStep<T>(r': seq<T>, q': seq<T>, a: T, b: T, key: T -> real)
    requires NonIncreasing(r' + [a], key) && NonIncreasing(q' + [b], key)
    requires forall k :: WithKey(r' + [a], key, k) == WithKey(q' + [b], key, k)
    ensures a == b
    ensures forall k :: WithKey(r', key, k) == WithKey(q', key, k)
  {
    var r, q := r' + [a], q' + [b];
    assert r[..|r| - 1] == r' && r[|r| - 1] == a && q[..|q| - 1] == q' && q[|q| - 1] == b;
    LastKeysAgree(r, q, key);
    LastElementsAgree(r, q, key);
    forall k
      ensures WithKey(r', key, k) == WithKey(q', key, k)
    {
      DropLastGroups(r', q', a, key, k);
    }
  }

  /** Two arrangements in descending key order with the same elements of each key, in
      the same order, are the same arrangement. */
  lemma {:induction false} SameGroupsSameOrder<T>(r: seq<T>, q: seq<T>, key: T -> real)
    requires NonIncreasing(r, key) && NonIncreasing(q, key)
    requires forall k :: WithKey(r, key, k) == WithKey(q, key, k)
    ensures r == q
    decreases |r| + |q|
  {
    if r != [] && q == [] {
      FirstGroupNonEmpty(r, key);
      assert false;
    } else if r == [] && q != [] {
      FirstGroupNonEmpty(q, key);
      assert false;
    } else if r != [] {
      var r', q' := r[..|r| - 1], q[..|q| - 1];
      assert r == r' + [r[|r| - 1]] && q == q' + [q[|q| - 1]];
      SameGroupsStep(r', q', r[|r| - 1], q[|q| - 1], key);
      SameGroupsSameOrder(r', q', key);
    }
  }

  /** The stable descending order is unique: any arrangement in descending key order that
      keeps each key's elements in their input order is the one `SortDesc` describes,
      whichever stable algorithm produced it. */
  lemma StableOrderUnique<T>(s: seq<T>, r: seq<T>, key: T -> real)
    requires NonIncreasing(r, key)
    requires forall k :: WithKey(r, key, k) == WithKey(s, key, k)
    ensures r == SortDesc(s, key)
  {
    SortDescOrdered(s, key);
    forall k
      ensures WithKey(r, key, k) == WithKey(SortDesc(s, key), key, k)
    {
      SortDescStable(s, key, k);
    }
    SameGroupsSameOrder(r, SortDesc(s, key), key);
  }

  /** Map commutes with insertion when the mapping keeps every key. */
  lemma {:induction false} InsertDescMap<A, B>(t: seq<A>, x: A, f: A -> B, ka: A -> real, kb: B -> real)
    requires forall i :: 0 <= i < |t| ==> kb(f(t[i])) == ka(t[i])
    requires kb(f(x)) == ka(x)
    ensures Map(InsertDesc(t, x, ka), f) == InsertDesc(Map(t, f), f(x), kb)
  {
    var ft := Map(t, f);
    if t == [] || ka(t[|t| - 1]) >= ka(x) {
      assert Map(t + [x], f) == ft + [f(x)];
    } else {
      var init, last := t[..|t| - 1], t[|t| - 1];
      InsertDescMap(init, x, f, ka, kb);
      assert ft[..|ft| - 1] == Map(init, f);
      assert Map(InsertDesc(init, x, ka) + [last], f) == Map(InsertDesc(init, x, ka), f) + [f(last)];
    }
  }

  /** Sorting by a key and then mapping equals mapping and then sorting by the
      corresponding key: the sort looks at nothing but the keys. */
  lemma {:induction false} SortDescMap<A, B>(s: seq<A>, f: A -> B, ka: A -> real, kb: B -> real)
    requires forall i :: 0 <= i < |s| ==> kb(f(s[i])) == ka(s[i])
    ensures Map(SortDesc(s, ka), f) == SortDesc(Map(s, f), kb)
  {
    if s != [] {
      var init, last := s[..|s| - 1], s[|s| - 1];
      var fs := Map(s, f);
      assert fs[..|fs| - 1] == Map(init, f);
      SortDescMap(init, f, ka, kb);
      var sorted := SortDesc(init, ka);
      SortDescPermutation(init, ka);
      forall i | 0 <= i < |sorted|
        ensures kb(f(sorted[i])) == ka(sorted[i])
      {
        assert sorted[i] in multiset(init);
        var j :| 0 <= j < |init| && init[j] == sorted[i];
      }
      InsertDescMap(sorted, last, f, ka, kb);
    }
  }

  lemma InsertDescShift<T>(t: seq<T>, j: nat, x: T, key: T -> real)
    requires 0 < j <= |t| && key(t[j - 1]) < key(x)
    ensures InsertDesc(t[..j], x, key) + t[j..] == InsertDesc(t[..j - 1], x, key) + t[j - 1..]
  {
    assert t[..j][..j - 1] == t[..j - 1];
    assert t[j - 1..] == [t[j - 1]] + t[j..];
  }

  /** Moving the hole at position `j` one place left: the element before it is copied
      into it, so the shifted block grows by one. */
  lemma ShiftStep<T>(r: seq<T>, t: seq<T>, rest: seq<T>, j: nat)
    requires 0 < j <= |t| && |r| == |t| + 1 + |rest|
    requires r[..j] == t[..j] && r[j + 1..] == t[j..] + rest
    ensures r[j := r[j - 1]][..j - 1] == t[..j - 1]
    ensures r[j := r[j - 1]][j..] == t[j - 1..] + rest
  {
    var r' := r[j := r[j - 1]];
    assert r'[..j - 1] == r[..j][..j - 1] == t[..j][..j - 1];
    assert r'[j..] == [r[j - 1]] + r[j + 1..];
    assert t[j - 1..] == [t[j - 1]] + t[j..];
  }

  /** Filling the hole at position `j` with `x`. */
  lemma FillHole<T>(r: seq<T>, t: seq<T>, rest: seq<T>, j: nat, x: T)
    requires j <= |t| && |r| == |t| + 1 + |rest|
    requires r[..j] == t[..j] && r[j + 1..] == t[j..] + rest
    ensures r[j := x] == t[..j] + [x] + t[j..] + rest
  {
    var r' := r[j := x];
    assert r' == r'[..j] + [r'[j]] + r'[j + 1..];
  }

  /** One insertion step: `r0[i]` moves left past the elements of the sorted prefix
      `r0[..i]` that have a smaller key, and those shift right by one. */
  method InsertAt<T>(r0: seq<T>, i: nat, key: T -> real) returns (r: seq<T>)
    requires i < |r0|
    ensures r == InsertDesc(r0[..i], r0[i], key) + r0[i + 1..]
  {
    var x := r0[i];
    ghost var t, rest := r0[..i], r0[i + 1..];
    r := r0;
    var j := i;
    assert r[j + 1..] == t[j..] + rest;
    while j > 0 && key(r[j - 1]) < key(x)
      invariant 0 <= j <= i && |r| == |r0|
      invariant r[..j] == t[..j] && r[j + 1..] == t[j..] + rest
      invariant InsertDesc(t, x, key) == InsertDesc(t[..j], x, key) + t[j..]
    {
      InsertDescShift(t, j, x, key);
      ShiftStep(r, t, rest, j);
      r := r[j := r[j - 1]];
      j := j - 1;
    }
    FillHole(r, t, rest, j, x);
    r := r[j := x];
    assert j > 0 ==> t[..j][..j - 1] == t[..j - 1] && t[..j][j - 1] == r[j - 1];
  }

  /** Insertion sort of a sequence, as the function `SortDesc` describes it: after
      step `i` the prefix `r[..i]` is the first `i` input elements, sorted. */
  method StableSortDesc<T>(s: seq<T>, key: T -> real) returns (r: seq<T>)
    ensures r == SortDesc(s, key)
  {
    r := s;
    for i := 0 to |s|
      invariant r == SortDesc(s[..i], key) + s[i..]
    {
      assert s[..i + 1][..i] == s[..i];
      assert r[..i] == SortDesc(s[..i], key) && r[i] == s[i] && r[i + 1..] == s[i + 1..];
      r := InsertAt(r, i, key);
    }
    assert s[..|s|] == s;
  }
}
