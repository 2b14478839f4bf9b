/** Sorting by a comparison, promising a sorted permutation and nothing about ties. */
module Sorting {

  predicate Sorted<T>(s: seq<T>, leq: (T, T) -> bool) {
    forall i, j :: 0 <= i < j < |s| ==> leq(s[i], s[j])
  }

  ghost predicate TotalOn<T>(s: seq<T>, leq: (T, T) -> bool) {
    && (forall x, y :: x in s && y in s ==> leq(x, y) || leq(y, x))
    && (forall x, y, z :: x in s && y in s && z in s && leq(x, y) && leq(y, z) ==> leq(x, z))
  }

  lemma InsertSorted<T>(r: seq<T>, x: T, k: nat, leq: (T, T) -> bool, s: seq<T>)
    requires TotalOn(s, leq) && Sorted(r, leq) && k <= |r| && x in s && forall y :: y in r ==> y in s
    requires forall i :: 0 <= i < k ==> leq(r[i], x)
    requires k < |r| ==> leq(x, r[k])
    ensures Sorted(r[..k] + [x] + r[k..], leq)
    ensures multiset(r[..k] + [x] + r[k..]) == multiset(r) + multiset{x}
    ensures forall y :: y in r[..k] + [x] + r[k..] ==> y in s
  {
    assert r == r[..k] + r[k..];
    forall i | k <= i < |r| ensures leq(x, r[i]) {
      if i > k {
        assert r[k] in s && r[i] in s && leq(r[k], r[i]);
      }
    }
  }

  method Sort<T>(s: seq<T>, leq: (T, T) -> bool) returns (r: seq<T>)
    requires TotalOn(s, leq)
    ensures Sorted(r, leq) && multiset(r) == multiset(s)
  {
    r := [];
    for i := 0 to |s|
      invariant Sorted(r, leq) && multiset(r) == multiset(s[..i])
      invariant forall y :: y in r ==> y in s
    {
      var k := 0;
      while k < |r| && leq(r[k], s[i])
        invariant 0 <= k <= |r|
        invariant forall j :: 0 <= j < k ==> leq(r[j], s[i])
      {
        k := k + 1;
      }
      assert k < |r| ==> r[k] in s && s[i] in s;
      InsertSorted(r, s[i], k, leq, s);
      assert s[..i + 1] == s[..i] + [s[i]];
      r := r[..k] + [s[i]] + r[k..];
    }
    assert s[..|s|] == s;
  }

  /** Where to insert `x` into an ordered sequence. */
  lemma {:induction false} Place<T>(r: seq<T>, x: T, leq: (T, T) -> bool, s: seq<T>) returns (k: nat)
    requires TotalOn(s, leq) && x in s && forall y :: y in r ==> y in s
    ensures k <= |r| && (forall i :: 0 <= i < k ==> leq(r[i], x)) && (k < |r| ==> leq(x, r[k]))
  {
    if r == [] || leq(x, r[0]) {
      k := 0;
    } else {
      assert r[0] in s;
      forall y | y in r[1..] ensures y in s {
        assert y in r;
      }
      k := Place(r[1..], x, leq, s);
      assert forall i :: 0 < i < k + 1 ==> r[i] == r[1..][i - 1];
      k := k + 1;
    }
  }

  /** Every sequence has an ordered permutation. */
  lemma {:induction false} Arranged<T>(s: seq<T>, leq: (T, T) -> bool) returns (r: seq<T>)
    requires TotalOn(s, leq)
    ensures Sorted(r, leq) && multiset(r) == multiset(s)
  {
    if s == [] {
      r := [];
    } else {
      var front, last := s[..|s| - 1], s[|s| - 1];
      assert s == front + [last];
      var q := Arranged(front, leq);
      forall y | y in q ensures y in s {
        assert y in multiset(q);
        assert y in front;
      }
      var k := Place(q, last, leq, s);
      InsertSorted(q, last, k, leq, s);
      r := q[..k] + [last] + q[k..];
    }
  }

  ghost predicate Unique<T>(s: seq<T>) {
    forall i, j :: 0 <= i < j < |s| ==> s[i] != s[j]
  }

  lemma OnlyOnce<T>(b: seq<T>, k: nat)
    requires Unique(b) && k < |b|
    ensures multiset(b)[b[k]] == 1
  {
    assert b == b[..k] + [b[k]] + b[k + 1..];
    assert b[k] !in b[..k] && b[k] !in b[k + 1..];
  }

  lemma Twice<T>(a: seq<T>, i: nat, j: nat)
    requires i < j < |a| && a[i] == a[j]
    ensures multiset(a)[a[i]] >= 2
  {
    assert a == a[..j] + [a[j]] + a[j + 1..];
    assert a[..j][i] == a[j];
  }

  /** A permutation of distinct elements has distinct elements. */
  lemma PermutedUnique<T>(a: seq<T>, b: seq<T>)
    requires multiset(a) == multiset(b) && Unique(b)
    ensures Unique(a)
  {
    forall i, j | 0 <= i < j < |a| ensures a[i] != a[j] {
      assert a[i] in multiset(b);
      var k :| 0 <= k < |b| && b[k] == a[i];
      if a[i] == a[j] {
        Twice(a, i, j);
        OnlyOnce(b, k);
      }
    }
  }

  /** Byte-wise order of strings. */
  predicate LexLeq(a: string, b: string) {
    a == "" || (b != "" && (a[0] < b[0] || (a[0] == b[0] && LexLeq(a[1..], b[1..]))))
  }

  lemma {:induction false} LexTotal(a: string, b: string)
    ensures LexLeq(a, b) || LexLeq(b, a)
  {
    if a != "" && b != "" && a[0] == b[0] {
      LexTotal(a[1..], b[1..]);
    }
  }

  lemma {:induction false} LexTransitive(a: string, b: string, c: string)
    requires LexLeq(a, b) && LexLeq(b, c)
    ensures LexLeq(a, c)
  {
    if a != "" && b != "" && c != "" && a[0] == b[0] == c[0] {
      LexTransitive(a[1..], b[1..], c[1..]);
    }
  }

  /** That is, by the first place where they differ, or the shorter one first. */
  lemma {:induction false} LexIsFirstDifference(a: string, b: string)
    ensures LexLeq(a, b) <==> a <= b || exists k :: 0 <= k < |a| && k < |b| && a[..k] == b[..k] && a[k] < b[k]
  {
    if a != "" && b != "" {
      LexIsFirstDifference(a[1..], b[1..]);
      var s, t := a[1..], b[1..];
      if a[0] == b[0] {
        assert a <= b <==> s <= t by {
          assert a == [a[0]] + s && b == [b[0]] + t;
        }
        if k :| 0 <= k < |s| && k < |t| && s[..k] == t[..k] && s[k] < t[k] {
          assert a[..k + 1] == [a[0]] + s[..k] && b[..k + 1] == [b[0]] + t[..k];
        }
        if k :| 0 <= k < |a| && k < |b| && a[..k] == b[..k] && a[k] < b[k] {
          assert k > 0 && s[..k - 1] == a[..k][1..] && t[..k - 1] == b[..k][1..];
        }
      } else if a[0] < b[0] {
        assert a[..0] == b[..0];
      } else {
        assert forall k :: 0 < k <= |a| && k <= |b| ==> a[..k][0] == a[0] && b[..k][0] == b[0];
      }
    }
  }

  lemma LexTotalOn(s: seq<string>)
    ensures TotalOn(s, LexLeq)
  {
    forall x, y | x in s && y in s ensures LexLeq(x, y) || LexLeq(y, x) {
      LexTotal(x, y);
    }
    forall x, y, z | x in s && y in s && z in s && LexLeq(x, y) && LexLeq(y, z) ensures LexLeq(x, z) {
      LexTransitive(x, y, z);
    }
  }
}
