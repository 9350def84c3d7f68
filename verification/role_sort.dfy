/**
 Sorting a group of summaries by role with the role comparator. The sort the
 dashboard calls is stable, and a stable sort is determined by its input, so
 the model uses insertion sort as its definition and proves that any
 sorted, order-preserving rearrangement equals it.
 */
module RoleSort {
  import opened Instances

  /** Non-decreasing by role under the comparator. */
  predicate Sorted(t: seq<Summary>) {
    forall i, j {:trigger CompareByRole(t[i], t[j])} :: 0 <= i < j < |t| ==> CompareByRole(t[i], t[j]) <= 0
  }

  lemma SortedDropLast(t: seq<Summary>)
    requires Sorted(t) && |t| > 0
    ensures Sorted(t[..|t| - 1])
  {
    var p := t[..|t| - 1];
    forall i, j | 0 <= i < j < |p|
      ensures CompareByRole(p[i], p[j]) <= 0
    {
      assert p[i] == t[i] && p[j] == t[j];
    }
  }

  /** The summaries of `t` whose role is `k`, in their order in `t`. */
  function WithRole(t: seq<Summary>, k: string): seq<Summary> {
    if |t| == 0 then []
    else WithRole(t[..|t| - 1], k) + (if t[|t| - 1].role == k then [t[|t| - 1]] else [])
  }

  /** A non-empty sequence is its prefix plus its last element, as a multiset. */
  lemma MultisetDropLast(t: seq<Summary>)
    requires |t| > 0
    ensures multiset(t) == multiset(t[..|t| - 1]) + multiset{t[|t| - 1]}
  {
    assert t == t[..|t| - 1] + [t[|t| - 1]];
  }

  /** Places `x` after every summary whose role is not greater than its own. */
  function Insert(t: seq<Summary>, x: Summary): seq<Summary>
    decreases |t|
  {
    if |t| == 0 || CompareByRole(t[|t| - 1], x) <= 0 then t + [x]
    else Insert(t[..|t| - 1], x) + [t[|t| - 1]]
  }

  lemma {:induction false} InsertBag(t: seq<Summary>, x: Summary)
    ensures multiset(Insert(t, x)) == multiset(t) + multiset{x}
    decreases |t|
  {
    if |t| > 0 && CompareByRole(t[|t| - 1], x) > 0 {
      var p := t[..|t| - 1];
      InsertBag(p, x);
      MultisetDropLast(t);
    }
  }

  lemma WithRoleAppend(t: seq<Summary>, x: Summary, k: string)
    ensures WithRole(t + [x], k) == WithRole(t, k) + (if x.role == k then [x] else [])
  {
    assert (t + [x])[..|t|] == t;
  }

  /** Inserting keeps the relative order of equal roles and puts `x` after them. */
  lemma {:induction false} InsertStable(t: seq<Summary>, x: Summary, k: string)
    ensures WithRole(Insert(t, x), k) == WithRole(t, k) + (if x.role == k then [x] else [])
    decreases |t|
  {
    if |t| == 0 || CompareByRole(t[|t| - 1], x) <= 0 {
      WithRoleAppend(t, x, k);
    } else {
      var p, l := t[..|t| - 1], t[|t| - 1];
      InsertStable(p, x, k);
      WithRoleAppend(Insert(p, x), l, k);
      assert l.role != x.role;
    }
  }

  lemma {:induction false} InsertSorted(t: seq<Summary>, x: Summary)
    requires Sorted(t)
    ensures Sorted(Insert(t, x))
    decreases |t|
  {
    if |t| == 0 {
    } else if CompareByRole(t[|t| - 1], x) <= 0 {
      var l := t[|t| - 1];
      forall i | 0 <= i < |t|
        ensures CompareByRole(t[i], x) <= 0
      {
        if i < |t| - 1 {
          CompareAtMostTransitive(t[i], l, x);
        }
      }
    } else {
      var p, l := t[..|t| - 1], t[|t| - 1];
      InsertSorted(p, x);
      InsertBag(p, x);
      var q := Insert(p, x);
      forall i | 0 <= i < |q|
        ensures CompareByRole(q[i], l) <= 0
      {
        assert q[i] in multiset(q);
        if q[i] != x {
          assert q[i] in multiset(p);
          var j :| 0 <= j < |p| && p[j] == q[i];
          assert t[j] == p[j];
        }
      }
    }
  }

  /**
   Stable sort by role: a sorted rearrangement of the input (that it keeps
   equal roles in input order is `StableSortKeepsRoleOrder`).
   */
  function StableSort(s: seq<Summary>): (r: seq<Summary>)
    ensures Sorted(r)
    ensures multiset(r) == multiset(s)
    decreases |s|
  {
    if |s| == 0 then []
    else
      var p := StableSort(s[..|s| - 1]);
      var x := s[|s| - 1];
      InsertSorted(p, x);
      InsertBag(p, x);
      MultisetDropLast(s);
      Insert(p, x)
  }

  /** Sorting keeps the summaries of each role in their input order. */
  lemma {:induction false} StableSortKeepsRoleOrder(s: seq<Summary>, k: string)
    ensures WithRole(StableSort(s), k) == WithRole(s, k)
    decreases |s|
  {
    if |s| > 0 {
      var p, x := s[..|s| - 1], s[|s| - 1];
      StableSortKeepsRoleOrder(p, k);
      InsertStable(StableSort(p), x, k);
    }
  }

  /** Sorting a sequence with one more summary inserts it into the sorted rest. */
  lemma StableSortSnoc(s: seq<Summary>, x: Summary)
    ensures StableSort(s + [x]) == Insert(StableSort(s), x)
  {
    assert (s + [x])[..|s|] == s;
  }

  /**
   Appending to a sorted group and sorting again gives the stable sort of the
   unsorted sequence with the new summary appended.
   */
  lemma {:induction false} ResortAfterAppend(s: seq<Summary>, x: Summary)
    ensures StableSort(StableSort(s) + [x]) == StableSort(s + [x])
  {
    var t := StableSort(s);
    SortSortedIsIdentity(t);
    assert (t + [x])[..|t|] == t;
    assert (s + [x])[..|s|] == s;
  }

  lemma WithRoleMember(t: seq<Summary>, k: string, z: Summary)
    requires z in WithRole(t, k)
    ensures z in t && z.role == k
  {
    if |t| > 0 {
      assert t == t[..|t| - 1] + [t[|t| - 1]];
      if z in WithRole(t[..|t| - 1], k) {
        WithRoleMember(t[..|t| - 1], k, z);
      }
    }
  }

  /**
   If `a` and `b` agree on the summaries with the role of `a`'s last summary,
   that summary occurs in `b`, so it is not above `b`'s last one.
   */
  lemma {:induction false} LastNotAbove(a: seq<Summary>, b: seq<Summary>)
    requires Sorted(b) && |a| > 0 && |b| > 0
    requires WithRole(a, a[|a| - 1].role) == WithRole(b, a[|a| - 1].role)
    ensures CompareByRole(a[|a| - 1], b[|b| - 1]) <= 0
  {
    var x := a[|a| - 1];
    assert WithRole(a, x.role) == WithRole(a[..|a| - 1], x.role) + [x];
    WithRoleMember(b, x.role, x);
    var j :| 0 <= j < |b| && b[j] == x;
    if j < |b| - 1 {
      assert CompareByRole(b[j], b[|b| - 1]) <= 0;
    }
  }

  /** Agreement on roles survives dropping a common last summary. */
  lemma {:induction false} DropLastAgrees(a: seq<Summary>, b: seq<Summary>, k: string)
    requires |a| > 0 && |b| > 0 && a[|a| - 1] == b[|b| - 1]
    requires WithRole(a, k) == WithRole(b, k)
    ensures WithRole(a[..|a| - 1], k) == WithRole(b[..|b| - 1], k)
  {
    var x := a[|a| - 1];
    var last := if x.role == k then [x] else [];
    var fa, fb := WithRole(a[..|a| - 1], k), WithRole(b[..|b| - 1], k);
    assert fa + last == fb + last;
    assert fa == (fa + last)[..|fa|];
    assert fb == (fb + last)[..|fb|];
  }

  /** Sequences that agree on every role are both empty or both not. */
  lemma {:induction false} AgreeingBothEmptyOrNot(a: seq<Summary>, b: seq<Summary>)
    requires forall k :: WithRole(a, k) == WithRole(b, k)
    ensures |a| == 0 <==> |b| == 0
  {
    if |a| > 0 {
      assert WithRole(a, a[|a| - 1].role) != [];
    }
    if |b| > 0 {
      assert WithRole(b, b[|b| - 1].role) != [];
    }
  }

  lemma SameDropLastSame(a: seq<Summary>, b: seq<Summary>)
    requires |a| > 0 && |b| > 0
    requires a[..|a| - 1] == b[..|b| - 1] && a[|a| - 1] == b[|b| - 1]
    ensures a == b
  {
    assert a == a[..|a| - 1] + [a[|a| - 1]];
    assert b == b[..|b| - 1] + [b[|b| - 1]];
  }

  /**
   Two sorted sequences that agree, role by role, on the order of their
   summaries are equal: every stable sort of a group yields `StableSort`.
   */
  lemma {:induction false} SortedByRoleUnique(a: seq<Summary>, b: seq<Summary>)
    requires Sorted(a) && Sorted(b)
    requires forall k :: WithRole(a, k) == WithRole(b, k)
    ensures a == b
    decreases |a|
  {
    AgreeingBothEmptyOrNot(a, b);
    if |a| > 0 {
      var pa, x := a[..|a| - 1], a[|a| - 1];
      var pb, y := b[..|b| - 1], b[|b| - 1];
      LastNotAbove(a, b);
      LastNotAbove(b, a);
      assert x.role == y.role;
      assert WithRole(a, x.role) == WithRole(pa, x.role) + [x];
      assert WithRole(b, x.role) == WithRole(pb, x.role) + [y];
      var w := WithRole(a, x.role);
      assert w == WithRole(b, x.role);
      assert w[|w| - 1] == x && w[|w| - 1] == y;
      forall k
        ensures WithRole(pa, k) == WithRole(pb, k)
      {
        DropLastAgrees(a, b, k);
      }
      SortedDropLast(a);
      SortedDropLast(b);
      SortedByRoleUnique(pa, pb);
      SameDropLastSame(a, b);
    }
  }
  /** A group that is already sorted is left as it is. */
  lemma {:induction false} SortSortedIsIdentity(t: seq<Summary>)
    requires Sorted(t)
    ensures StableSort(t) == t
  {
    forall k
      ensures WithRole(StableSort(t), k) == WithRole(t, k)
    {
      StableSortKeepsRoleOrder(t, k);
    }
    SortedByRoleUnique(StableSort(t), t);
  }
}
