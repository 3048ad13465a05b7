/**
 * The stable descending sort behind `habitComparisons.sort` and the feed's
 * `events.sort` (a comparator `key(b) - key(a)`; JavaScript's sort is stable).
 *
 * Stability is stated per key class: the elements that share a key keep their
 * relative order, so the subsequence of each class is unchanged.
 */
module Sorting {

  predicate SortedDescending<T>(s: seq<T>, key: T -> int) {
    forall p, q :: 0 <= p < q < |s| ==> key(s[p]) >= key(s[q])
  }

  /** The elements of `s` whose key is `k`, in their order in `s`. */
  function KeyClass<T>(s: seq<T>, key: T -> int, k: int): seq<T> {
    if s == [] then []
    else KeyClass(s[..|s| - 1], key, k) + (if key(s[|s| - 1]) == k then [s[|s| - 1]] else [])
  }

  /** Every key class has the same elements in the same order. */
  ghost predicate SameKeyClasses<T>(s: seq<T>, t: seq<T>, key: T -> int) {
    forall k :: KeyClass(s, key, k) == KeyClass(t, key, k)
  }

  lemma {:induction false} KeyClassOfConcat<T>(s: seq<T>, t: seq<T>, key: T -> int, k: int)
    ensures KeyClass(s + t, key, k) == KeyClass(s, key, k) + KeyClass(t, key, k)
  {
    if t == [] {
      assert s + t == s;
    } else {
      var t' := t[..|t| - 1];
      assert (s + t)[..|s + t| - 1] == s + t';
      assert (s + t)[|s + t| - 1] == t[|t| - 1];
      KeyClassOfConcat(s, t', key, k);
    }
  }

  lemma {:induction false} KeyClassIsSubset<T>(s: seq<T>, key: T -> int, k: int)
    ensures forall x :: x in KeyClass(s, key, k) ==> x in s && key(x) == k
  {
    if s != [] {
      KeyClassIsSubset(s[..|s| - 1], key, k);
    }
  }

  /** An element that occurs in one list of the same key classes occurs in the other. */
  lemma LastIsInOther<T>(s: seq<T>, t: seq<T>, key: T -> int)
    requires s != [] && SameKeyClasses(s, t, key)
    ensures s[|s| - 1] in t
  {
    var a := s[|s| - 1];
    assert a in KeyClass(s, key, key(a));
    KeyClassIsSubset(t, key, key(a));
  }

  /** Two sorted lists with the same key classes end in elements of the same key. */
  lemma LastKeysAgree<T>(s: seq<T>, t: seq<T>, key: T -> int)
    requires s != [] && t != []
    requires SortedDescending(s, key) && SortedDescending(t, key) && SameKeyClasses(s, t, key)
    ensures key(s[|s| - 1]) == key(t[|t| - 1])
  {
    LastIsInOther(s, t, key);
    LastIsInOther(t, s, key);
    var ia :| 0 <= ia < |t| && t[ia] == s[|s| - 1];
    var ib :| 0 <= ib < |s| && s[ib] == t[|t| - 1];
  }

  /** Dropping last elements of the same key keeps the key classes equal, and those elements are equal. */
  lemma DropLastKeepsClasses<T>(s: seq<T>, t: seq<T>, key: T -> int)
    requires s != [] && t != [] && key(s[|s| - 1]) == key(t[|t| - 1])
    requires SameKeyClasses(s, t, key)
    ensures s[|s| - 1] == t[|t| - 1]
    ensures SameKeyClasses(s[..|s| - 1], t[..|t| - 1], key)
  {
    var s', a := s[..|s| - 1], s[|s| - 1];
    var t', b := t[..|t| - 1], t[|t| - 1];
    var m := key(a);
    assert KeyClass(s, key, m) == KeyClass(s', key, m) + [a];
    assert KeyClass(t, key, m) == KeyClass(t', key, m) + [b];
    var c := KeyClass(s, key, m);
    assert c == KeyClass(t, key, m);
    assert c[|c| - 1] == a && c[|c| - 1] == b;
    forall k ensures KeyClass(s', key, k) == KeyClass(t', key, k) {
      if k == m {
        assert KeyClass(s, key, m)[..|KeyClass(s, key, m)| - 1] == KeyClass(s', key, m);
        assert KeyClass(t, key, m)[..|KeyClass(t, key, m)| - 1] == KeyClass(t', key, m);
      } else {
        assert KeyClass(s, key, k) == KeyClass(s', key, k);
        assert KeyClass(t, key, k) == KeyClass(t', key, k);
      }
    }
  }

  /** A prefix of a descending list is descending. */
  lemma SortedPrefix<T>(s: seq<T>, n: nat, key: T -> int)
    requires n <= |s| && SortedDescending(s, key)
    ensures SortedDescending(s[..n], key)
  {
    assert forall p :: 0 <= p < n ==> s[..n][p] == s[p];
  }

  /**
   * The descending order and the key classes together fix a list: a stable
   * descending sort has exactly one possible result.
   */
  lemma {:induction false} SortedKeyClassesDetermine<T>(s: seq<T>, t: seq<T>, key: T -> int)
    requires SortedDescending(s, key) && SortedDescending(t, key)
    requires SameKeyClasses(s, t, key)
    ensures s == t
    decreases |s| + |t|
  {
    if s != [] || t != [] {
      if s != [] {
        LastIsInOther(s, t, key);
      }
      if t != [] {
        LastIsInOther(t, s, key);
      }
      LastKeysAgree(s, t, key);
      DropLastKeepsClasses(s, t, key);
      SortedPrefix(s, |s| - 1, key);
      SortedPrefix(t, |t| - 1, key);
      SortedKeyClassesDetermine(s[..|s| - 1], t[..|t| - 1], key);
      assert s == s[..|s| - 1] + [s[|s| - 1]] && t == t[..|t| - 1] + [t[|t| - 1]];
    }
  }

  /** A key class of a sequence ranked strictly increasingly is itself ranked strictly increasingly. */
  lemma {:induction false} KeyClassKeepsRankOrder<T>(s: seq<T>, key: T -> int, k: int, rank: T -> int)
    requires forall p, q :: 0 <= p < q < |s| ==> rank(s[p]) < rank(s[q])
    ensures forall p, q :: 0 <= p < q < |KeyClass(s, key, k)| ==>
      rank(KeyClass(s, key, k)[p]) < rank(KeyClass(s, key, k)[q])
  {
    if s != [] {
      var init := s[..|s| - 1];
      KeyClassKeepsRankOrder(init, key, k, rank);
      KeyClassIsSubset(init, key, k);
      var c := KeyClass(init, key, k);
      forall x | x in c ensures rank(x) < rank(s[|s| - 1]) {
        var p :| 0 <= p < |init| && init[p] == x;
      }
    }
  }

  /** `s` with the neighbours at `j - 1` and `j` exchanged. */
  function Swapped<T>(s: seq<T>, j: int): (t: seq<T>)
    requires 0 < j < |s|
    ensures |t| == |s| && t[j - 1] == s[j] && t[j] == s[j - 1]
    ensures forall k :: 0 <= k < |s| && k != j - 1 && k != j ==> t[k] == s[k]
  {
    s[j - 1 := s[j]][j := s[j - 1]]
  }

  /** Swapping two neighbours with different keys leaves every key class as it was. */
  lemma SwapKeepsKeyClasses<T>(s: seq<T>, j: int, key: T -> int)
    requires 0 < j < |s| && key(s[j - 1]) != key(s[j])
    ensures SameKeyClasses(Swapped(s, j), s, key)
    ensures multiset(Swapped(s, j)) == multiset(s)
  {
    var t := Swapped(s, j);
    assert s == s[..j - 1] + [s[j - 1], s[j]] + s[j + 1..];
    assert t == s[..j - 1] + [s[j], s[j - 1]] + s[j + 1..];
    forall k ensures KeyClass(t, key, k) == KeyClass(s, key, k) {
      KeyClassOfConcat(s[..j - 1] + [s[j - 1], s[j]], s[j + 1..], key, k);
      KeyClassOfConcat(s[..j - 1], [s[j - 1], s[j]], key, k);
      KeyClassOfConcat(s[..j - 1] + [s[j], s[j - 1]], s[j + 1..], key, k);
      KeyClassOfConcat(s[..j - 1], [s[j], s[j - 1]], key, k);
      assert [s[j - 1], s[j]][..1] == [s[j - 1]];
      assert [s[j], s[j - 1]][..1] == [s[j]];
    }
  }

  /**
   * While the element that started at `i` moves left, it sits at `j`: the
   * prefix up to `i` is sorted apart from it, and it outranks everything it passed.
   */
  predicate Inserting<T>(s: seq<T>, i: int, j: int, key: T -> int) {
    0 <= j <= i < |s|
    && (forall p, q :: 0 <= p < q <= i && p != j && q != j ==> key(s[p]) >= key(s[q]))
    && (forall q :: j < q <= i ==> key(s[j]) > key(s[q]))
  }

  lemma InsertionStarts<T>(s: seq<T>, i: int, key: T -> int)
    requires 0 <= i < |s| && SortedDescending(s[..i], key)
    ensures Inserting(s, i, i, key)
  {
    forall p, q | 0 <= p < q <= i && p != i && q != i ensures key(s[p]) >= key(s[q]) {
      assert s[..i][p] == s[p] && s[..i][q] == s[q];
    }
  }

  lemma InsertionSteps<T>(s: seq<T>, i: int, j: int, key: T -> int)
    requires Inserting(s, i, j, key) && 0 < j && key(s[j - 1]) < key(s[j])
    ensures Inserting(Swapped(s, j), i, j - 1, key)
  {
  }

  lemma InsertionEnds<T>(s: seq<T>, i: int, j: int, key: T -> int)
    requires Inserting(s, i, j, key) && (j == 0 || key(s[j - 1]) >= key(s[j]))
    ensures SortedDescending(s[..i + 1], key)
  {
    forall p, q | 0 <= p < q <= i ensures key(s[p]) >= key(s[q]) {
      if q == j && p < j - 1 {
        assert key(s[p]) >= key(s[j - 1]);
      }
    }
  }

  /** `s` is `t` reordered without changing the order within any key class. */
  ghost predicate Rearranges<T>(s: seq<T>, t: seq<T>, key: T -> int) {
    multiset(s) == multiset(t) && SameKeyClasses(s, t, key)
  }

  /** One swap of the inserted element past a smaller key keeps both the insertion and the rearrangement. */
  lemma SwapStep<T>(s: seq<T>, orig: seq<T>, i: int, j: int, key: T -> int)
    requires Inserting(s, i, j, key) && 0 < j && key(s[j - 1]) < key(s[j])
    requires Rearranges(s, orig, key)
    ensures Inserting(Swapped(s, j), i, j - 1, key)
    ensures Rearranges(Swapped(s, j), orig, key)
  {
    SwapKeepsKeyClasses(s, j, key);
    InsertionSteps(s, i, j, key);
  }

  /**
   * One pass of insertion: the element at `i` moves left by neighbour swaps,
   * only past elements with a strictly smaller key, which is what keeps the
   * sort stable.
   */
  method InsertNext<T>(a: array<T>, i: int, key: T -> int, ghost orig: seq<T>)
    requires 0 < i < a.Length && SortedDescending(a[..i], key) && Rearranges(a[..], orig, key)
    modifies a
    ensures SortedDescending(a[..i + 1], key) && Rearranges(a[..], orig, key)
  {
    InsertionStarts(a[..], i, key);
    var j := i;
    while j > 0 && key(a[j - 1]) < key(a[j])
      invariant Inserting(a[..], i, j, key)
      invariant Rearranges(a[..], orig, key)
    {
      ghost var before := a[..];
      SwapStep(before, orig, i, j, key);
      a[j - 1], a[j] := a[j], a[j - 1];
      assert a[..] == Swapped(before, j);
      j := j - 1;
    }
    InsertionEnds(a[..], i, j, key);
  }

  /** Insertion sort: sorted descending by key, a permutation, and stable. */
  method SortDescendingBy<T>(a: array<T>, key: T -> int)
    modifies a
    ensures SortedDescending(a[..], key)
    ensures multiset(a[..]) == multiset(old(a[..]))
    ensures SameKeyClasses(a[..], old(a[..]), key)
  {
    if a.Length == 0 {
      return;
    }
    ghost var orig := a[..];
    for i := 1 to a.Length
      invariant SortedDescending(a[..i], key)
      invariant Rearranges(a[..], orig, key)
    {
      InsertNext(a, i, key, orig);
    }
    assert a[..a.Length] == a[..];
  }
}
