/** The array operations the handlers rely on — `findIndex` and `filter`
    (`find` is `findIndex` followed by indexing) — over immutable
    sequences, with the order facts the collection invariants need. */
module Seqs {

  /** `s.findIndex(p)`: the index of the first element satisfying `p`, or -1
      when there is none. */
  function FindIndex<T>(s: seq<T>, p: T -> bool): (k: int)
    ensures -1 <= k < |s|
    ensures k == -1 <==> forall j :: 0 <= j < |s| ==> !p(s[j])
    ensures 0 <= k ==> p(s[k]) && forall j :: 0 <= j < k ==> !p(s[j])
  {
    if |s| == 0 then -1
    else if p(s[0]) then 0
    else
      var k := FindIndex(s[1..], p);
      if k == -1 then -1 else k + 1
  }

  /** `t` is `s` with some elements dropped and the rest kept in order. */
  predicate IsSubsequence<T(==)>(t: seq<T>, s: seq<T>)
    decreases |s|
  {
    if |t| == 0 then true
    else if |s| == 0 then false
    else if t[0] == s[0] then IsSubsequence(t[1..], s[1..])
    else IsSubsequence(t, s[1..])
  }

  /** `s.filter(keep)`: the elements satisfying `keep`, each as often as in
      `s`, in their order in `s`. */
  function Filter<T(==,!new)>(s: seq<T>, keep: T -> bool): (t: seq<T>)
    ensures |t| <= |s|
    ensures forall x :: x in t ==> x in s && keep(x)
    ensures IsSubsequence(t, s)
  {
    if |s| == 0 then []
    else
      var rest := Filter(s[1..], keep);
      assert s == [s[0]] + s[1..];
      if keep(s[0]) then
        var t := [s[0]] + rest;
        assert t[1..] == rest;
        t
      else
        assert rest == [] || rest[0] != s[0];
        rest
  }

  /** Filtering keeps each element satisfying `keep` as often as it occurs
      and drops every other one: with `IsSubsequence`, this determines the
      result. */
  lemma {:induction false} FilterMultiplicity<T(!new)>(s: seq<T>, keep: T -> bool)
    ensures forall x :: multiset(Filter(s, keep))[x] == if keep(x) then multiset(s)[x] else 0
  {
    if |s| > 0 {
      FilterMultiplicity(s[1..], keep);
      assert s == [s[0]] + s[1..];
      assert multiset(s) == multiset{s[0]} + multiset(s[1..]);
      if keep(s[0]) {
        assert multiset(Filter(s, keep)) == multiset{s[0]} + multiset(Filter(s[1..], keep));
      }
    }
  }

  /** Filtering drops nothing exactly when every element satisfies `keep`. */
  lemma {:induction false} FilterLength<T(!new)>(s: seq<T>, keep: T -> bool)
    ensures |Filter(s, keep)| == |s| <==> forall j :: 0 <= j < |s| ==> keep(s[j])
  {
    if |s| > 0 {
      FilterLength(s[1..], keep);
      if !keep(s[0]) {
        assert |Filter(s, keep)| < |s|;
      } else if exists j :: 0 <= j < |s| && !keep(s[j]) {
        var j :| 0 <= j < |s| && !keep(s[j]);
        assert !keep(s[1..][j - 1]);
      } else {
        assert forall j :: 0 <= j < |s| - 1 ==> keep(s[1..][j]) by {
          forall j | 0 <= j < |s| - 1 ensures keep(s[1..][j]) {
            assert s[1..][j] == s[j + 1];
          }
        }
      }
    }
  }

  /** Filtering a concatenation filters each part. */
  lemma {:induction false} FilterConcat<T(!new)>(a: seq<T>, b: seq<T>, keep: T -> bool)
    ensures Filter(a + b, keep) == Filter(a, keep) + Filter(b, keep)
  {
    if |a| > 0 {
      FilterConcat(a[1..], b, keep);
      assert (a + b)[1..] == a[1..] + b;
    } else {
      assert a + b == b;
    }
  }

  /** Filtering with a test every element passes keeps the sequence whole. */
  lemma {:induction false} FilterAllKept<T(!new)>(s: seq<T>, keep: T -> bool)
    requires forall j :: 0 <= j < |s| ==> keep(s[j])
    ensures Filter(s, keep) == s
  {
    if |s| > 0 {
      assert forall j :: 0 <= j < |s| - 1 ==> keep(s[1..][j]) by {
        forall j | 0 <= j < |s| - 1 ensures keep(s[1..][j]) {
          assert s[1..][j] == s[j + 1];
        }
      }
      FilterAllKept(s[1..], keep);
      assert s == [s[0]] + s[1..];
    }
  }

  /** Filtering out the one element that fails the test. */
  lemma FilterDropsOne<T(!new)>(s: seq<T>, keep: T -> bool, k: nat)
    requires k < |s| && !keep(s[k])
    requires forall j :: 0 <= j < |s| && j != k ==> keep(s[j])
    ensures Filter(s, keep) == s[..k] + s[k + 1..]
  {
    var pre, rest := s[..k], s[k..];
    assert s == pre + rest;
    FilterConcat(pre, rest, keep);
    assert forall j :: 0 <= j < |pre| ==> keep(pre[j]) by {
      forall j | 0 <= j < |pre| ensures keep(pre[j]) {
        assert pre[j] == s[j];
      }
    }
    FilterAllKept(pre, keep);
    assert rest[0] == s[k] && rest[1..] == s[k + 1..];
    assert Filter(rest, keep) == Filter(s[k + 1..], keep);
    var post := s[k + 1..];
    assert forall j :: 0 <= j < |post| ==> keep(post[j]) by {
      forall j | 0 <= j < |post| ensures keep(post[j]) {
        assert post[j] == s[k + 1 + j];
      }
    }
    FilterAllKept(post, keep);
  }

  /** Every earlier element of `s` stands in `before` to every later one. */
  ghost predicate Ordered<T>(s: seq<T>, before: (T, T) -> bool) {
    forall i, j :: 0 <= i < j < |s| ==> before(s[i], s[j])
  }

  /** Filtering keeps the order of what it keeps. */
  lemma {:induction false} FilterOrdered<T(!new)>(s: seq<T>, keep: T -> bool, before: (T, T) -> bool)
    requires Ordered(s, before)
    ensures Ordered(Filter(s, keep), before)
  {
    if |s| > 0 {
      var rest := Filter(s[1..], keep);
      assert Ordered(s[1..], before) by {
        forall i, j | 0 <= i < j < |s| - 1 ensures before(s[1..][i], s[1..][j]) {
          assert s[1..][i] == s[i + 1] && s[1..][j] == s[j + 1];
        }
      }
      FilterOrdered(s[1..], keep, before);
      if keep(s[0]) {
        var t := [s[0]] + rest;
        forall i, j | 0 <= i < j < |t| ensures before(t[i], t[j]) {
          if i == 0 {
            assert t[j] in rest;
            var k :| 0 <= k < |s| - 1 && s[1..][k] == t[j];
            assert s[k + 1] == t[j];
          } else {
            assert t[i] == rest[i - 1] && t[j] == rest[j - 1];
          }
        }
      }
    }
  }
}
