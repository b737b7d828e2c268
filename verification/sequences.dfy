/** The list-building shapes the handlers share: `filter`, and a loop that
    pushes `make(x)` for each element that passes a test. Their facts are
    proved once here, for any test and any entry builder. */
module Sequences {

  /** `s.filter(keep)`: the kept elements, in their order. */
  function Select<T(!new)>(s: seq<T>, keep: T -> bool): (r: seq<T>)
    ensures |r| <= |s|
    ensures forall x :: x in r <==> x in s && keep(x)
  {
    if s == [] then []
    else Select(s[..|s| - 1], keep) + (if keep(s[|s| - 1]) then [s[|s| - 1]] else [])
  }

  /** `for (x of s) if (keep(x)) out.push(make(x))`. */
  function Collect<T, U>(s: seq<T>, keep: T -> bool, make: T -> U): (r: seq<U>)
    ensures |r| <= |s|
  {
    if s == [] then []
    else Collect(s[..|s| - 1], keep, make) + (if keep(s[|s| - 1]) then [make(s[|s| - 1])] else [])
  }

  /** The positions in `s` of the kept elements, in increasing order. */
  function Positions<T>(s: seq<T>, keep: T -> bool): seq<nat> {
    if s == [] then []
    else Positions(s[..|s| - 1], keep) + (if keep(s[|s| - 1]) then [|s| - 1] else [])
  }

  lemma TakeSnoc<T>(s: seq<T>, i: nat)
    requires i < |s|
    ensures s[..i + 1] == s[..i] + [s[i]]
  {
  }

  lemma TakeAll<T>(s: seq<T>)
    ensures s[..|s|] == s
  {
  }

  /** Pushing one more element extends the collected entries by at most its entry. */
  lemma CollectSnoc<T, U>(s: seq<T>, x: T, keep: T -> bool, make: T -> U)
    ensures Collect(s + [x], keep, make) == Collect(s, keep, make) + (if keep(x) then [make(x)] else [])
  {
    assert (s + [x])[..|s|] == s;
  }

  lemma SelectSnoc<T(!new)>(s: seq<T>, x: T, keep: T -> bool)
    ensures Select(s + [x], keep) == Select(s, keep) + (if keep(x) then [x] else [])
  {
    assert (s + [x])[..|s|] == s;
  }

  /** Entry k of the collected list is `make` of the element at the k-th kept
      position; the positions increase; and every kept element has one. */
  lemma {:induction false} CollectTrace<T, U>(s: seq<T>, keep: T -> bool, make: T -> U)
    ensures var r := Collect(s, keep, make);
      var idx := Positions(s, keep);
      |idx| == |r| &&
      (forall k :: 0 <= k < |idx| ==> idx[k] < |s| && keep(s[idx[k]]) && r[k] == make(s[idx[k]])) &&
      (forall k, l :: 0 <= k < l < |idx| ==> idx[k] < idx[l]) &&
      (forall i :: 0 <= i < |s| && keep(s[i]) ==> i in idx)
  {
    if s != [] {
      var n := |s| - 1;
      var front := s[..n];
      CollectTrace(front, keep, make);
      var r0, idx0 := Collect(front, keep, make), Positions(front, keep);
      var r, idx := Collect(s, keep, make), Positions(s, keep);
      assert r == r0 + (if keep(s[n]) then [make(s[n])] else []);
      assert idx == idx0 + (if keep(s[n]) then [n] else []);
      forall k | 0 <= k < |idx0|
        ensures idx[k] == idx0[k] && r[k] == r0[k] && idx[k] < n && s[idx[k]] == front[idx0[k]]
      {
      }
      forall i | 0 <= i < |s| && keep(s[i])
        ensures i in idx
      {
        if i < n {
          assert front[i] == s[i];
          assert i in idx0;
        } else {
          assert idx[|idx0|] == n;
        }
      }
    }
  }

  /** When every element passes the test, nothing is skipped. */
  lemma {:induction false} CollectAll<T, U>(s: seq<T>, keep: T -> bool, make: T -> U)
    requires forall i :: 0 <= i < |s| ==> keep(s[i])
    ensures |Collect(s, keep, make)| == |s|
    ensures forall k :: 0 <= k < |s| ==> Collect(s, keep, make)[k] == make(s[k])
  {
    if s != [] {
      var n := |s| - 1;
      var front := s[..n];
      CollectAll(front, keep, make);
      var c := Collect(front, keep, make);
      assert Collect(s, keep, make) == c + [make(s[n])];
      forall k | 0 <= k < |s| ensures Collect(s, keep, make)[k] == make(s[k]) {
        if k < n {
          assert front[k] == s[k];
        }
      }
    }
  }

  /** Filtering by `p` and then collecting under `q` is collecting under a
      test `both` that means `p` and `q`. */
  lemma {:induction false} CollectOfSelect<T(!new), U>(s: seq<T>, p: T -> bool, q: T -> bool, both: T -> bool, make: T -> U)
    requires forall x :: both(x) <==> p(x) && q(x)
    ensures Collect(Select(s, p), q, make) == Collect(s, both, make)
  {
    if s != [] {
      var n := |s| - 1;
      var x := s[n];
      CollectOfSelect(s[..n], p, q, both, make);
      var sel := Select(s[..n], p);
      if p(x) {
        assert Select(s, p) == sel + [x];
        CollectSnoc(sel, x, q, make);
      } else {
        assert Select(s, p) == sel;
      }
    }
  }

  /** The number of elements the test keeps. */
  function Count<T(!new)>(s: seq<T>, keep: T -> bool): nat {
    |Select(s, keep)|
  }

  /** Every element is kept by exactly one of two complementary tests. */
  lemma {:induction false} CountSplit<T(!new)>(s: seq<T>, p: T -> bool, q: T -> bool)
    requires forall x :: q(x) <==> !p(x)
    ensures Count(s, p) + Count(s, q) == |s|
  {
    if s != [] {
      CountSplit(s[..|s| - 1], p, q);
    }
  }

  /** `ge` orders every pair and is transitive. */
  ghost predicate TotalPreorder<T(!new)>(ge: (T, T) -> bool) {
    (forall a, b :: ge(a, b) || ge(b, a)) &&
    (forall a, b, c :: ge(a, b) && ge(b, c) ==> ge(a, c))
  }

  /** Every element is `ge` every later one. */
  predicate SortedBy<T>(s: seq<T>, ge: (T, T) -> bool) {
    forall i, j :: 0 <= i < j < |s| ==> ge(s[i], s[j])
  }

  function Insert<T>(x: T, s: seq<T>, ge: (T, T) -> bool): (r: seq<T>)
    ensures |r| == |s| + 1
    ensures multiset(r) == multiset(s) + multiset{x}
  {
    if s == [] then [x]
    else if ge(x, s[0]) then [x] + s
    else
      assert s == [s[0]] + s[1..];
      [s[0]] + Insert(x, s[1..], ge)
  }

  /** A query's `.sort(...)`: the same records, ordered by `ge`. */
  function SortBy<T>(s: seq<T>, ge: (T, T) -> bool): (r: seq<T>)
    ensures multiset(r) == multiset(s)
  {
    if s == [] then []
    else
      assert s == [s[0]] + s[1..];
      Insert(s[0], SortBy(s[1..], ge), ge)
  }

  lemma {:induction false} InsertSorted<T(!new)>(x: T, s: seq<T>, ge: (T, T) -> bool)
    requires TotalPreorder(ge) && SortedBy(s, ge)
    ensures SortedBy(Insert(x, s, ge), ge)
  {
    if s != [] && !ge(x, s[0]) {
      var t := s[1..];
      assert SortedBy(t, ge);
      InsertSorted(x, t, ge);
      assert forall k :: 0 <= k < |t| ==> ge(s[0], t[k]) by {
        forall k | 0 <= k < |t| ensures ge(s[0], t[k]) {
          assert t[k] == s[k + 1];
        }
      }
      InsertBelow(s[0], x, t, ge);
      ConsSorted(s[0], Insert(x, t, ge), ge);
      assert Insert(x, s, ge) == [s[0]] + Insert(x, t, ge);
    }
  }

  /** A bound on `x` and on every element of `t` bounds every element of the insertion. */
  lemma InsertBelow<T>(h: T, x: T, t: seq<T>, ge: (T, T) -> bool)
    requires ge(h, x) && forall k :: 0 <= k < |t| ==> ge(h, t[k])
    ensures forall k :: 0 <= k < |Insert(x, t, ge)| ==> ge(h, Insert(x, t, ge)[k])
  {
    var it := Insert(x, t, ge);
    forall k | 0 <= k < |it| ensures ge(h, it[k]) {
      assert it[k] in multiset(it);
      if it[k] != x {
        assert it[k] in multiset(t);
        var j :| 0 <= j < |t| && t[j] == it[k];
      }
    }
  }

  lemma ConsSorted<T>(h: T, s: seq<T>, ge: (T, T) -> bool)
    requires SortedBy(s, ge) && forall k :: 0 <= k < |s| ==> ge(h, s[k])
    ensures SortedBy([h] + s, ge)
  {
    var r := [h] + s;
    forall i, j | 0 <= i < j < |r| ensures ge(r[i], r[j]) {
      assert r[j] == s[j - 1];
      if i > 0 {
        assert r[i] == s[i - 1];
      }
    }
  }

  lemma {:induction false} SortBySorted<T(!new)>(s: seq<T>, ge: (T, T) -> bool)
    requires TotalPreorder(ge)
    ensures SortedBy(SortBy(s, ge), ge)
  {
    if s != [] {
      SortBySorted(s[1..], ge);
      InsertSorted(s[0], SortBy(s[1..], ge), ge);
    }
  }

  /** Two sequences with the same multiset hold the same elements. */
  lemma SameElements<T>(a: seq<T>, b: seq<T>)
    requires multiset(a) == multiset(b)
    ensures forall x :: x in a <==> x in b
  {
    forall x
      ensures x in a <==> x in b
    {
      assert x in a <==> x in multiset(a);
      assert x in b <==> x in multiset(b);
    }
  }

  /** An element at two adjacent positions occurs at least twice. */
  lemma AdjacentTwice<T>(s: seq<T>, i: nat)
    requires i + 1 < |s| && s[i] == s[i + 1]
    ensures multiset(s)[s[i]] >= 2
  {
    assert s == s[..i] + [s[i], s[i]] + s[i + 2..];
  }

  /** The elements last to first. */
  function Reversed<T>(s: seq<T>): (r: seq<T>)
    ensures |r| == |s|
    ensures forall k :: 0 <= k < |s| ==> r[k] == s[|s| - 1 - k]
  {
    seq(|s|, k requires 0 <= k < |s| => s[|s| - 1 - k])
  }
}
