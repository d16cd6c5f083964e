/**
 * The array operations the components build their state from: `filter`,
 * `find`, "append unless already included", and the notions of order-
 * preserving subsequence and duplicate-freedom used to specify them.
 */
module Seqs {
  import opened Wrappers

  /** `sub` is obtained from `s` by deleting elements, keeping the order of the rest. */
  ghost predicate IsSubsequence<T>(sub: seq<T>, s: seq<T>)
    decreases |s|
  {
    || sub == []
    || (s != [] &&
        ((sub[0] == s[0] && IsSubsequence(sub[1..], s[1..])) || IsSubsequence(sub, s[1..])))
  }

  /** No element occurs twice. */
  ghost predicate NoDup<T>(s: seq<T>) {
    forall i, j :: 0 <= i < j < |s| ==> s[i] != s[j]
  }

  /**
   * `s.filter(p)`: exactly the elements of `s` that satisfy `p`, each as
   * often as in `s`, in their original order.
   */
  function Filter<T(!new)>(s: seq<T>, p: T -> bool): (r: seq<T>)
    ensures IsSubsequence(r, s)
    ensures forall x :: multiset(r)[x] == if p(x) then multiset(s)[x] else 0
    ensures forall x :: x in r <==> x in s && p(x)
    ensures (forall i :: 0 <= i < |s| ==> p(s[i])) ==> r == s
    decreases |s|
  {
    if s == [] then []
    else
      var rest := Filter(s[1..], p);
      assert s == [s[0]] + s[1..];
      if p(s[0]) then
        FilterStepKept(s[0], s[1..], rest, p);
        [s[0]] + rest
      else
        FilterStepDropped(s[0], s[1..], rest, p);
        rest
  }

  /** One step of `Filter` when the head passes. */
  lemma FilterStepKept<T(!new)>(x: T, tail: seq<T>, rest: seq<T>, p: T -> bool)
    requires p(x)
    requires IsSubsequence(rest, tail)
    requires forall y :: multiset(rest)[y] == if p(y) then multiset(tail)[y] else 0
    requires (forall i :: 0 <= i < |tail| ==> p(tail[i])) ==> rest == tail
    ensures IsSubsequence([x] + rest, [x] + tail)
    ensures forall y :: multiset([x] + rest)[y] == if p(y) then multiset([x] + tail)[y] else 0
    ensures forall y :: y in [x] + rest <==> y in [x] + tail && p(y)
    ensures (forall i :: 0 <= i < |[x] + tail| ==> p(([x] + tail)[i])) ==> [x] + rest == [x] + tail
  {
    var r, s := [x] + rest, [x] + tail;
    assert r[1..] == rest && s[1..] == tail;
    assert multiset(r) == multiset{x} + multiset(rest);
    assert multiset(s) == multiset{x} + multiset(tail);
    if forall i :: 0 <= i < |s| ==> p(s[i]) {
      forall i | 0 <= i < |tail| ensures p(tail[i]) {
        assert tail[i] == s[i + 1];
      }
    }
  }

  /** One step of `Filter` when the head fails. */
  lemma FilterStepDropped<T(!new)>(x: T, tail: seq<T>, rest: seq<T>, p: T -> bool)
    requires !p(x)
    requires IsSubsequence(rest, tail)
    requires forall y :: multiset(rest)[y] == if p(y) then multiset(tail)[y] else 0
    ensures IsSubsequence(rest, [x] + tail)
    ensures forall y :: multiset(rest)[y] == if p(y) then multiset([x] + tail)[y] else 0
    ensures forall y :: y in rest <==> y in [x] + tail && p(y)
    ensures !(forall i :: 0 <= i < |[x] + tail| ==> p(([x] + tail)[i]))
  {
    var s := [x] + tail;
    assert s[1..] == tail;
    assert multiset(s) == multiset{x} + multiset(tail);
    assert !p(s[0]);
  }

  /** Filtering a duplicate-free sequence leaves it duplicate-free. */
  lemma {:induction false} FilterKeepsNoDup<T(!new)>(s: seq<T>, p: T -> bool)
    ensures NoDup(s) ==> NoDup(Filter(s, p))
    decreases |s|
  {
    if s != [] && NoDup(s) {
      assert NoDup(s[1..]) by {
        forall i, j | 0 <= i < j < |s[1..]| ensures s[1..][i] != s[1..][j] {
          assert s[1..][i] == s[i + 1] && s[1..][j] == s[j + 1];
        }
      }
      FilterKeepsNoDup(s[1..], p);
      var rest := Filter(s[1..], p);
      if p(s[0]) {
        assert s[0] !in s[1..] by {
          forall k | 0 <= k < |s[1..]| ensures s[1..][k] != s[0] {
            assert s[1..][k] == s[k + 1];
          }
        }
        assert s[0] !in rest;
        var r := [s[0]] + rest;
        forall i, j | 0 <= i < j < |r| ensures r[i] != r[j] {
          assert r[j] == rest[j - 1];
          if i > 0 {
            assert r[i] == rest[i - 1];
          }
        }
      }
    }
  }

  /** `s.find(p)`: the first element of `s` that satisfies `p`, if there is one. */
  function Find<T>(s: seq<T>, p: T -> bool): (r: Option<T>)
    ensures r.None? <==> forall i :: 0 <= i < |s| ==> !p(s[i])
    ensures r.Some? ==> exists i :: FirstMatchAt(s, p, i) && s[i] == r.value
    decreases |s|
  {
    if s == [] then None
    else if p(s[0]) then
      assert FirstMatchAt(s, p, 0);
      Some(s[0])
    else
      var r := Find(s[1..], p);
      assert r.Some? ==> exists i :: FirstMatchAt(s, p, i) && s[i] == r.value by {
        if r.Some? {
          var i :| FirstMatchAt(s[1..], p, i) && s[1..][i] == r.value;
          assert FirstMatchAt(s, p, i + 1);
        }
      }
      r
  }

  /** Position `i` holds the first element of `s` that satisfies `p`. */
  ghost predicate FirstMatchAt<T>(s: seq<T>, p: T -> bool, i: int) {
    0 <= i < |s| && p(s[i]) && forall j :: 0 <= j < i ==> !p(s[j])
  }

  /** Whatever `Find` returns is the element at the first matching position. */
  lemma FindIsFirst<T>(s: seq<T>, p: T -> bool, i: int)
    requires FirstMatchAt(s, p, i)
    ensures Find(s, p) == Some(s[i])
  {
    var r := Find(s, p);
    var k :| FirstMatchAt(s, p, k) && s[k] == r.value;
    assert !(k < i) && !(i < k);
  }

  /**
   * `s.includes(x) ? s : [...s, x]`: `x` is appended at the end only when it
   * is absent, so a duplicate-free list stays duplicate-free.
   */
  function AppendIfAbsent<T(==,!new)>(s: seq<T>, x: T): (r: seq<T>)
    ensures x in r
    ensures forall y :: y in r <==> y in s || y == x
    ensures |r| == if x in s then |s| else |s| + 1
    ensures r[..|s|] == s
    ensures NoDup(s) ==> NoDup(r)
  {
    if x in s then s else s + [x]
  }

  /** `s.filter(y => y !== x)`: every occurrence of `x` is dropped, the rest keep their order. */
  function Without<T(==,!new)>(s: seq<T>, x: T): (r: seq<T>)
    ensures x !in r
    ensures forall y :: y != x ==> multiset(r)[y] == multiset(s)[y]
    ensures IsSubsequence(r, s)
    ensures x !in s ==> r == s
    ensures NoDup(s) ==> NoDup(r)
  {
    var p := (y: T) => y != x;
    FilterKeepsNoDup(s, p);
    Filter(s, p)
  }

  /** A duplicate-free sequence has as many distinct elements as it has positions. */
  lemma {:induction false} NoDupCardinality<T>(s: seq<T>)
    requires NoDup(s)
    ensures |(set x | x in s)| == |s|
    decreases |s|
  {
    if s != [] {
      assert NoDup(s[1..]) by {
        forall i, j | 0 <= i < j < |s[1..]| ensures s[1..][i] != s[1..][j] {
          assert s[1..][i] == s[i + 1] && s[1..][j] == s[j + 1];
        }
      }
      NoDupCardinality(s[1..]);
      assert s[0] !in s[1..] by {
        forall k | 0 <= k < |s[1..]| ensures s[1..][k] != s[0] {
          assert s[1..][k] == s[k + 1];
        }
      }
      assert (set x | x in s) == {s[0]} + (set x | x in s[1..]);
    }
  }
}
