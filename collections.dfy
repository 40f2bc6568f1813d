/** The array operations the pages use, on `seq`: `filter`, `slice(0, n)`,
    and `Array.from(new Set(xs))`. */
module Collections {
  import opened Outcomes

  /** `a` is `b` with some elements left out, the rest in their order. */
  predicate IsSubsequence<T(==)>(a: seq<T>, b: seq<T>)
    decreases |b|
  {
    if a == [] then true
    else if b == [] then false
    else if a[0] == b[0] then IsSubsequence(a[1..], b[1..])
    else IsSubsequence(a, b[1..])
  }

  /** `s.filter(p)`. */
  function Filter<T(==)>(s: seq<T>, p: T -> bool): (r: seq<T>)
    ensures |r| <= |s|
    ensures forall i :: 0 <= i < |r| ==> r[i] in s && p(r[i])
    ensures forall i :: 0 <= i < |s| && p(s[i]) ==> s[i] in r
  {
    if s == [] then []
    else if p(s[0]) then [s[0]] + Filter(s[1..], p)
    else Filter(s[1..], p)
  }

  /** The filter keeps its elements in their order. */
  lemma {:induction false} FilterIsSubsequence<T>(s: seq<T>, p: T -> bool)
    ensures IsSubsequence(Filter(s, p), s)
  {
    if s != [] {
      FilterIsSubsequence(s[1..], p);
      if p(s[0]) {
        assert ([s[0]] + Filter(s[1..], p))[1..] == Filter(s[1..], p);
      } else {
        var r := Filter(s[1..], p);
        if r != [] {
          assert r[0] in s[1..] && p(r[0]);
          // a kept element differs from the dropped first one
          assert r[0] != s[0];
        }
      }
    }
  }

  lemma {:induction false} FilterAll<T>(s: seq<T>, p: T -> bool)
    requires forall i :: 0 <= i < |s| ==> p(s[i])
    ensures Filter(s, p) == s
  {
    if s != [] {
      FilterAll(s[1..], p);
      assert [s[0]] + s[1..] == s;
    }
  }

  lemma {:induction false} FilterNone<T>(s: seq<T>, p: T -> bool)
    requires forall i :: 0 <= i < |s| ==> !p(s[i])
    ensures Filter(s, p) == []
  {
    if s != [] {
      FilterNone(s[1..], p);
    }
  }

  /** Filtering a concatenation filters each part. */
  lemma {:induction false} FilterConcat<T>(a: seq<T>, b: seq<T>, p: T -> bool)
    ensures Filter(a + b, p) == Filter(a, p) + Filter(b, p)
  {
    if a == [] {
      assert a + b == b;
    } else {
      var ab := a + b;
      assert ab[0] == a[0];
      assert ab[1..] == a[1..] + b;
      FilterConcat(a[1..], b, p);
      var head: seq<T> := if p(a[0]) then [a[0]] else [];
      assert Filter(ab, p) == head + Filter(a[1..] + b, p);
      assert Filter(a, p) == head + Filter(a[1..], p);
    }
  }

  /** A passing block between two failing stretches is what the filter keeps. */
  lemma FilterMiddle<T>(a: seq<T>, b: seq<T>, c: seq<T>, p: T -> bool)
    requires forall i :: 0 <= i < |a| ==> !p(a[i])
    requires forall i :: 0 <= i < |b| ==> p(b[i])
    requires forall i :: 0 <= i < |c| ==> !p(c[i])
    ensures Filter(a + b + c, p) == b
  {
    FilterConcat(a + b, c, p);
    FilterConcat(a, b, p);
    FilterNone(a, p);
    FilterAll(b, p);
    FilterNone(c, p);
    assert [] + b + [] == b;
  }

  /** When exactly the elements at positions `lo` to `hi - 1` pass, the
      filter keeps that block. */
  lemma FilterBlock<T>(s: seq<T>, lo: nat, hi: nat, p: T -> bool)
    requires lo <= hi <= |s|
    requires forall i :: 0 <= i < |s| ==> (p(s[i]) <==> lo <= i < hi)
    ensures Filter(s, p) == s[lo..hi]
  {
    var before, block, after := s[..lo], s[lo..hi], s[hi..];
    forall i | 0 <= i < |before| ensures !p(before[i]) {
      assert before[i] == s[i];
    }
    forall i | 0 <= i < |block| ensures p(block[i]) {
      assert block[i] == s[lo + i];
    }
    forall i | 0 <= i < |after| ensures !p(after[i]) {
      assert after[i] == s[hi + i];
    }
    FilterMiddle(before, block, after, p);
    assert before + block + after == s;
  }

  /** Filters that agree on every element give the same result. */
  lemma {:induction false} FilterSame<T>(s: seq<T>, p: T -> bool, q: T -> bool)
    requires forall i :: 0 <= i < |s| ==> p(s[i]) == q(s[i])
    ensures Filter(s, p) == Filter(s, q)
  {
    if s != [] {
      FilterSame(s[1..], p, q);
    }
  }

  /** Every element of the subsequence occurs in the sequence. */
  lemma {:induction false} SubsequenceMembers<T>(a: seq<T>, b: seq<T>)
    requires IsSubsequence(a, b)
    ensures forall i :: 0 <= i < |a| ==> a[i] in b
    decreases |b|
  {
    if a != [] && b != [] {
      if a[0] == b[0] {
        SubsequenceMembers(a[1..], b[1..]);
      } else {
        SubsequenceMembers(a, b[1..]);
      }
    }
  }

  /** `s.find(p)`: the first element satisfying `p`, or `undefined`. */
  function Find<T>(s: seq<T>, p: T -> bool): (r: Option<T>)
    ensures r.None? <==> forall i :: 0 <= i < |s| ==> !p(s[i])
    ensures r.Some? ==> exists i :: 0 <= i < |s| && s[i] == r.value && p(s[i]) &&
                          forall j :: 0 <= j < i ==> !p(s[j])
  {
    if s == [] then None
    else if p(s[0]) then Some(s[0])
    else
      var r := Find(s[1..], p);
      assert r.Some? ==> exists i :: 1 <= i < |s| && s[i] == r.value && p(s[i]) &&
                           forall j :: 1 <= j < i ==> !p(s[j]) by {
        if r.Some? {
          var i :| 0 <= i < |s| - 1 && s[1..][i] == r.value && p(s[1..][i]) &&
                   forall j :: 0 <= j < i ==> !p(s[1..][j]);
          assert s[i + 1] == r.value;
          assert forall j :: 1 <= j < i + 1 ==> s[j] == s[1..][j - 1];
        }
      }
      r
  }

  /** A sequence without repeated elements. */
  predicate NoDuplicates<T(==)>(s: seq<T>) {
    forall i, j :: 0 <= i < j < |s| ==> s[i] != s[j]
  }

  /** `Array.from(new Set(s))`: the elements of `s` in the order a set first
      receives them. Inserting `s` left to right, the last element enters the
      set only if the earlier ones have not already brought it in. */
  function Distinct<T(==)>(s: seq<T>): (r: seq<T>)
    ensures forall i :: 0 <= i < |r| ==> r[i] in s
    ensures forall i :: 0 <= i < |s| ==> s[i] in r
    ensures NoDuplicates(r)
  {
    if s == [] then []
    else
      var prefix := s[..|s| - 1];
      var last := s[|s| - 1];
      var r := Distinct(prefix);
      if last in prefix then r else r + [last]
  }

  /** First-appearance order: an element listed before another by `Distinct`
      occurs in `s` before any occurrence of the other. */
  lemma {:induction false} DistinctFirstAppearance<T>(s: seq<T>, i: nat, j: nat, k: nat)
    requires i < j < |Distinct(s)| && k < |s| && s[k] == Distinct(s)[j]
    ensures Distinct(s)[i] in s[..k]
  {
    var prefix := s[..|s| - 1];
    var last := s[|s| - 1];
    var r := Distinct(prefix);
    if last in prefix {
      if k == |s| - 1 {
        // the same element occurs earlier, in the prefix
        var k' :| 0 <= k' < |prefix| && prefix[k'] == last;
        DistinctFirstAppearance(prefix, i, j, k');
        assert prefix[..k'] == s[..k'];
      } else {
        DistinctFirstAppearance(prefix, i, j, k);
        assert prefix[..k] == s[..k];
      }
    } else if j < |r| {
      // `last` is new, so the occurrence at k is an earlier one
      DistinctFirstAppearance(prefix, i, j, k);
      assert prefix[..k] == s[..k];
    } else {
      // Distinct(s)[j] is `last`, which occurs only at the end
      assert k == |s| - 1;
      assert s[..k] == prefix;
    }
  }

  /** An element not met before is added at the end. */
  lemma DistinctSnoc<T>(s: seq<T>, x: T)
    requires x !in s
    ensures Distinct(s + [x]) == Distinct(s) + [x]
  {
    assert (s + [x])[..|s|] == s;
  }

  /** Elements already met add nothing to the distinct elements. */
  lemma {:induction false} DistinctNothingNew<T>(s: seq<T>, t: seq<T>)
    requires forall i :: 0 <= i < |t| ==> t[i] in s
    ensures Distinct(s + t) == Distinct(s)
  {
    if t != [] {
      var front := t[..|t| - 1];
      DistinctNothingNew(s, front);
      assert (s + t)[..|s + t| - 1] == s + front;
      var prefix := (s + t)[..|s + t| - 1];
      var last := (s + t)[|s + t| - 1];
      assert last == t[|t| - 1];
      assert last in prefix;
      assert Distinct(s + t) == Distinct(prefix);
    } else {
      assert s + t == s;
    }
  }
}
