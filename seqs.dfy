/** Sequence utilities shared by every screen of the model: optional values, order-preserving
    filtering, sums and counts grouped by a key, first-occurrence de-duplication (what a
    JavaScript `Set` built from an array keeps, in insertion order) and first-match search
    (`Array.prototype.find`), with the partition facts the screens' totals rely on.

    Sums and filters recurse on the LAST element, so that a loop that walks `s[..i]` extends
    them one element at a time. */
module Seqs {

  datatype Option<T> = None | Some(value: T)

  /** `x || 0` on an optional number: a missing value counts as 0. */
  function OrZero(x: Option<int>): int {
    if x.Some? then x.value else 0
  }

  /** `s || ''` on an optional text: a missing text counts as empty. */
  function OrEmpty(s: Option<string>): string {
    if s.Some? then s.value else ""
  }

  /** `a` is an order-preserving subsequence of `b`. */
  predicate IsSubsequence<T(==)>(a: seq<T>, b: seq<T>)
    decreases |b|
  {
    |a| == 0 ||
    (|b| > 0 &&
     ((a[|a| - 1] == b[|b| - 1] && IsSubsequence(a[..|a| - 1], b[..|b| - 1])) ||
      IsSubsequence(a, b[..|b| - 1])))
  }

  /** No value occurs twice. */
  predicate NoDup<T(==)>(s: seq<T>) {
    forall i, j :: 0 <= i < j < |s| ==> s[i] != s[j]
  }

  /** `Array.prototype.map`. */
  function MapSeq<T, U>(s: seq<T>, f: T -> U): (r: seq<U>)
    ensures |r| == |s|
    ensures forall i :: 0 <= i < |s| ==> r[i] == f(s[i])
  {
    seq(|s|, i requires 0 <= i < |s| => f(s[i]))
  }

  /** `Array.prototype.filter`: the elements that satisfy `keep`, in their original order. */
  function Filter<T>(s: seq<T>, keep: T -> bool): (r: seq<T>)
    ensures |r| <= |s|
    ensures forall i :: 0 <= i < |r| ==> keep(r[i])
    ensures forall i :: 0 <= i < |r| ==> r[i] in s
    ensures forall i :: 0 <= i < |s| && keep(s[i]) ==> s[i] in r
  {
    if |s| == 0 then []
    else
      assert forall i :: 0 <= i < |s| - 1 ==> s[i] == s[..|s| - 1][i];
      Filter(s[..|s| - 1], keep) + (if keep(s[|s| - 1]) then [s[|s| - 1]] else [])
  }

  lemma {:induction false} FilterIsSubsequence<T>(s: seq<T>, keep: T -> bool)
    ensures IsSubsequence(Filter(s, keep), s)
  {
    if |s| > 0 {
      var p, x := s[..|s| - 1], s[|s| - 1];
      FilterIsSubsequence(p, keep);
      var f := Filter(p, keep);
      if keep(x) {
        assert Filter(s, keep) == f + [x];
        assert (f + [x])[..|f|] == f;
      } else {
        assert Filter(s, keep) == f;
        SubsequenceExtend(f, p, x);
        assert p + [x] == s;
      }
    }
  }

  /** A subsequence of `b` is a subsequence of `b` extended by one element. */
  lemma {:induction false} SubsequenceExtend<T>(a: seq<T>, b: seq<T>, x: T)
    requires IsSubsequence(a, b)
    ensures IsSubsequence(a, b + [x])
  {
    assert (b + [x])[..|b|] == b;
  }

  /** Filtering with a condition every element meets changes nothing. */
  lemma {:induction false} FilterAll<T>(s: seq<T>, keep: T -> bool)
    requires forall i :: 0 <= i < |s| ==> keep(s[i])
    ensures Filter(s, keep) == s
  {
    if |s| > 0 {
      FilterAll(s[..|s| - 1], keep);
    }
  }

  /** A filter that keeps as many elements as it is given keeps every one of them. */
  lemma {:induction false} FilterFull<T>(s: seq<T>, keep: T -> bool)
    requires |Filter(s, keep)| == |s|
    ensures forall i :: 0 <= i < |s| ==> keep(s[i])
  {
    if |s| > 0 {
      var p := s[..|s| - 1];
      assert keep(s[|s| - 1]);
      FilterFull(p, keep);
      assert forall i :: 0 <= i < |s| - 1 ==> s[i] == p[i];
    }
  }

  /** Every element of a subsequence of `b` is an element of `b`. */
  lemma {:induction false} SubsequenceMembers<T>(a: seq<T>, b: seq<T>)
    requires IsSubsequence(a, b)
    ensures forall i :: 0 <= i < |a| ==> a[i] in b
    decreases |b|
  {
    if |a| > 0 {
      var b' := b[..|b| - 1];
      assert b == b' + [b[|b| - 1]];
      if a[|a| - 1] == b[|b| - 1] && IsSubsequence(a[..|a| - 1], b') {
        SubsequenceMembers(a[..|a| - 1], b');
        assert forall i :: 0 <= i < |a| - 1 ==> a[i] == a[..|a| - 1][i];
      } else {
        SubsequenceMembers(a, b');
      }
    }
  }

  /** A subsequence of a sequence without repetitions has none either. */
  lemma {:induction false} SubsequenceNoDup<T>(a: seq<T>, b: seq<T>)
    requires IsSubsequence(a, b) && NoDup(b)
    ensures NoDup(a)
    decreases |b|
  {
    if |a| > 0 {
      var a', b' := a[..|a| - 1], b[..|b| - 1];
      assert NoDup(b');
      if a[|a| - 1] == b[|b| - 1] && IsSubsequence(a', b') {
        SubsequenceNoDup(a', b');
        SubsequenceMembers(a', b');
        assert forall i :: 0 <= i < |a'| ==> a'[i] == a[i];
        assert forall i :: 0 <= i < |b'| ==> b'[i] != b[|b| - 1];
      } else {
        SubsequenceNoDup(a, b');
      }
    }
  }

  /** The number of elements that satisfy `keep`. */
  function Count<T>(s: seq<T>, keep: T -> bool): (n: nat)
    ensures n <= |s|
  {
    if |s| == 0 then 0 else Count(s[..|s| - 1], keep) + (if keep(s[|s| - 1]) then 1 else 0)
  }

  /** The count is the length of the filtered sequence. */
  lemma {:induction false} CountIsFilterLength<T>(s: seq<T>, keep: T -> bool)
    ensures Count(s, keep) == |Filter(s, keep)|
  {
    if |s| > 0 {
      CountIsFilterLength(s[..|s| - 1], keep);
    }
  }

  /** Every element is kept exactly when the count is the length, and none exactly when the
      count is 0. */
  lemma CountExtremes<T>(s: seq<T>, keep: T -> bool)
    ensures Count(s, keep) == |s| <==> forall i :: 0 <= i < |s| ==> keep(s[i])
    ensures Count(s, keep) == 0 <==> forall i :: 0 <= i < |s| ==> !keep(s[i])
  {
    var f := Filter(s, keep);
    CountIsFilterLength(s, keep);
    if forall i :: 0 <= i < |s| ==> keep(s[i]) {
      FilterAll(s, keep);
    }
    if |f| == |s| {
      FilterFull(s, keep);
    }
    if exists i :: 0 <= i < |s| && keep(s[i]) {
      var i :| 0 <= i < |s| && keep(s[i]);
      assert s[i] in f;
    }
    if |f| > 0 {
      assert f[0] in s;
    }
  }

  /** The sum of `w` over the elements. */
  function Sum<T>(s: seq<T>, w: T -> int): int {
    if |s| == 0 then 0 else Sum(s[..|s| - 1], w) + w(s[|s| - 1])
  }

  /** The sum of `w` over the elements whose key is `k`. */
  function SumWhere<T, K(==)>(s: seq<T>, key: T -> K, k: K, w: T -> int): int {
    if |s| == 0 then 0
    else SumWhere(s[..|s| - 1], key, k, w) + (if key(s[|s| - 1]) == k then w(s[|s| - 1]) else 0)
  }

  /** The number of elements whose key is `k`. */
  function CountWhere<T, K(==)>(s: seq<T>, key: T -> K, k: K): nat {
    if |s| == 0 then 0
    else CountWhere(s[..|s| - 1], key, k) + (if key(s[|s| - 1]) == k then 1 else 0)
  }

  /** Appending one element changes only the group of its own key. */
  lemma WhereSnoc<T, K>(p: seq<T>, x: T, key: T -> K, w: T -> int)
    ensures forall k :: SumWhere(p + [x], key, k, w) == SumWhere(p, key, k, w) + (if key(x) == k then w(x) else 0)
    ensures forall k :: CountWhere(p + [x], key, k) == CountWhere(p, key, k) + (if key(x) == k then 1 else 0)
  {
    assert (p + [x])[..|p|] == p;
  }

  /** A key no element has gets an empty group. */
  lemma {:induction false} WhereAbsent<T, K>(s: seq<T>, key: T -> K, k: K, w: T -> int)
    requires forall i :: 0 <= i < |s| ==> key(s[i]) != k
    ensures SumWhere(s, key, k, w) == 0 && CountWhere(s, key, k) == 0
  {
    if |s| > 0 {
      WhereAbsent(s[..|s| - 1], key, k, w);
    }
  }

  /** Appending one element to a sequence extends its distinct values by that element unless
      it was there already. */
  /** Mapping a sequence with one more element at the end. */
  lemma MapSeqSnoc<T, U>(p: seq<T>, x: T, f: T -> U)
    ensures MapSeq(p + [x], f) == MapSeq(p, f) + [f(x)]
  {
  }

  lemma DistinctSnoc<T(!new)>(p: seq<T>, x: T)
    ensures Distinct(p + [x]) == if x in Distinct(p) then Distinct(p) else Distinct(p) + [x]
  {
    assert (p + [x])[..|p|] == p;
  }

  lemma {:induction false} CountWhereIsSum<T, K>(s: seq<T>, key: T -> K, k: K)
    ensures CountWhere(s, key, k) == SumWhere(s, key, k, _ => 1)
  {
    if |s| > 0 {
      CountWhereIsSum(s[..|s| - 1], key, k);
    }
  }

  /** The grouped sums added up over a list of keys. */
  function SumOverKeys<T, K(==)>(s: seq<T>, key: T -> K, w: T -> int, ks: seq<K>): int {
    if |ks| == 0 then 0
    else SumOverKeys(s, key, w, ks[..|ks| - 1]) + SumWhere(s, key, ks[|ks| - 1], w)
  }

  lemma {:induction false} SumOverKeysEmpty<T, K>(key: T -> K, w: T -> int, ks: seq<K>)
    ensures SumOverKeys([], key, w, ks) == 0
  {
    if |ks| > 0 {
      SumOverKeysEmpty(key, w, ks[..|ks| - 1]);
    }
  }

  /** Appending one element adds its weight to exactly the one key that is its own. */
  lemma {:induction false} SumOverKeysSnoc<T, K>(p: seq<T>, x: T, key: T -> K, w: T -> int, ks: seq<K>)
    requires NoDup(ks)
    ensures SumOverKeys(p + [x], key, w, ks) == SumOverKeys(p, key, w, ks) + (if key(x) in ks then w(x) else 0)
  {
    if |ks| > 0 {
      var q, k := ks[..|ks| - 1], ks[|ks| - 1];
      assert NoDup(q);
      SumOverKeysSnoc(p, x, key, w, q);
      assert (p + [x])[..|p|] == p;
      assert SumWhere(p + [x], key, k, w) == SumWhere(p, key, k, w) + (if key(x) == k then w(x) else 0);
      assert k !in q;
      assert key(x) in ks <==> key(x) in q || key(x) == k;
    }
  }

  /** When every element's key is among `ks` and `ks` has no repetition, the grouped sums
      add up to the whole sum: the groups partition the sequence. */
  lemma {:induction false} PartitionSum<T, K>(s: seq<T>, key: T -> K, w: T -> int, ks: seq<K>)
    requires NoDup(ks)
    requires forall i :: 0 <= i < |s| ==> key(s[i]) in ks
    ensures SumOverKeys(s, key, w, ks) == Sum(s, w)
  {
    if |s| == 0 {
      SumOverKeysEmpty(key, w, ks);
    } else {
      var p, x := s[..|s| - 1], s[|s| - 1];
      PartitionSum(p, key, w, ks);
      assert p + [x] == s;
      SumOverKeysSnoc(p, x, key, w, ks);
    }
  }

  /** The counts per key, added up over a list of keys. */
  function CountOverKeys<T, K(==)>(s: seq<T>, key: T -> K, ks: seq<K>): int {
    if |ks| == 0 then 0 else CountOverKeys(s, key, ks[..|ks| - 1]) + CountWhere(s, key, ks[|ks| - 1])
  }

  lemma {:induction false} CountOverKeysIsSum<T, K>(s: seq<T>, key: T -> K, ks: seq<K>)
    ensures CountOverKeys(s, key, ks) == SumOverKeys(s, key, _ => 1, ks)
  {
    if |ks| > 0 {
      CountOverKeysIsSum(s, key, ks[..|ks| - 1]);
      CountWhereIsSum(s, key, ks[|ks| - 1]);
    }
  }

  lemma {:induction false} SumOfOnes<T>(s: seq<T>)
    ensures Sum(s, _ => 1) == |s|
  {
    if |s| > 0 {
      SumOfOnes(s[..|s| - 1]);
    }
  }

  /** The per-key counts of a partition add up to the length of the sequence. */
  lemma {:induction false} PartitionCount<T, K>(s: seq<T>, key: T -> K, ks: seq<K>)
    requires NoDup(ks)
    requires forall i :: 0 <= i < |s| ==> key(s[i]) in ks
    ensures CountOverKeys(s, key, ks) == |s|
  {
    CountOverKeysIsSum(s, key, ks);
    PartitionSum(s, key, _ => 1, ks);
    SumOfOnes(s);
  }

  /** The keys of the elements, each once, in order of first occurrence. */
  function Distinct<T(==,!new)>(s: seq<T>): (r: seq<T>)
    ensures NoDup(r)
    ensures forall x :: x in r <==> x in s
    ensures |r| <= |s|
  {
    if |s| == 0 then []
    else
      var d := Distinct(s[..|s| - 1]);
      assert forall i :: 0 <= i < |s| - 1 ==> s[i] == s[..|s| - 1][i];
      if s[|s| - 1] in d then d else d + [s[|s| - 1]]
  }

  lemma {:induction false} DistinctIsSubsequence<T(!new)>(s: seq<T>)
    ensures IsSubsequence(Distinct(s), s)
  {
    if |s| > 0 {
      var p, x := s[..|s| - 1], s[|s| - 1];
      DistinctIsSubsequence(p);
      var d := Distinct(p);
      if x in d {
        assert Distinct(s) == d;
        SubsequenceExtend(d, p, x);
        assert p + [x] == s;
      } else {
        assert Distinct(s) == d + [x];
        assert (d + [x])[..|d|] == d;
      }
    }
  }

  /** The first element that satisfies `f` (`Array.prototype.find`), or None. */
  function Find<T>(s: seq<T>, f: T -> bool): (r: Option<T>)
    ensures r.Some? ==> exists i :: 0 <= i < |s| && s[i] == r.value && f(s[i]) && forall j :: 0 <= j < i ==> !f(s[j])
    ensures r.None? <==> forall i :: 0 <= i < |s| ==> !f(s[i])
  {
    if |s| == 0 then None
    else if f(s[0]) then Some(s[0])
    else
      var r := Find(s[1..], f);
      assert forall i :: 1 <= i < |s| ==> s[i] == s[1..][i - 1];
      if r.Some? then
        ghost var i :| 0 <= i < |s[1..]| && s[1..][i] == r.value && f(s[1..][i]) && forall j :: 0 <= j < i ==> !f(s[1..][j]);
        assert s[i + 1] == r.value && f(s[i + 1]) && forall j :: 0 <= j < i + 1 ==> !f(s[j]);
        r
      else r
  }
}
