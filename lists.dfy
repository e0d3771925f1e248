/**
 * The two Python list operations the session store relies on:
 * list.remove (first occurrence) and the guarded append
 * `if x not in xs: xs.append(x)`.
 */
module Lists {

  /** No value occurs twice. */
  predicate Distinct<T(==)>(s: seq<T>) {
    forall i, j :: 0 <= i < j < |s| ==> s[i] != s[j]
  }

  /** r is s with its element at i removed, and i is the first position of x in s. */
  predicate RemovedFirstAt<T(==)>(s: seq<T>, x: T, i: int, r: seq<T>) {
    0 <= i < |s| && s[i] == x && x !in s[..i] && r == s[..i] + s[i + 1..]
  }

  /** The position list.remove scans to: the first index holding x. */
  function FirstIndex<T(==)>(s: seq<T>, x: T): (i: nat)
    requires x in s
    ensures i < |s| && s[i] == x && x !in s[..i]
  {
    if s[0] == x then 0
    else
      var j := FirstIndex(s[1..], x);
      assert s[..j + 1] == [s[0]] + s[1..][..j];
      j + 1
  }

  /** xs.remove(x) for an x that is in xs: drops the first occurrence, keeps the order of the rest. */
  function RemoveFirst<T(==)>(s: seq<T>, x: T): (r: seq<T>)
    requires x in s
    ensures |r| == |s| - 1
    ensures multiset(r) == multiset(s) - multiset{x}
    ensures exists i :: RemovedFirstAt(s, x, i, r)
  {
    var i := FirstIndex(s, x);
    assert s == s[..i] + [x] + s[i + 1..];
    assert RemovedFirstAt(s, x, i, s[..i] + s[i + 1..]);
    s[..i] + s[i + 1..]
  }

  /** Removing an element keeps a duplicate-free list duplicate-free, and that element is gone. */
  lemma RemoveFirstDistinct<T>(s: seq<T>, x: T)
    requires x in s && Distinct(s)
    ensures Distinct(RemoveFirst(s, x))
    ensures x !in RemoveFirst(s, x)
    ensures forall y :: y in RemoveFirst(s, x) <==> y in s && y != x
  {
    var i := FirstIndex(s, x);
    var r := RemoveFirst(s, x);
    assert r == s[..i] + s[i + 1..];
    assert forall k :: 0 <= k < |r| ==> r[k] == s[if k < i then k else k + 1];
    forall y | y in s && y != x
      ensures y in r
    {
      var j :| 0 <= j < |s| && s[j] == y;
      if j < i {
        assert r[j] == y;
      } else {
        assert r[j - 1] == y;
      }
    }
  }

  /** When x was not in s, removing it from s + [x] gives s back exactly. */
  lemma RemoveFirstAppended<T>(s: seq<T>, x: T)
    requires x !in s
    ensures RemoveFirst(s + [x], x) == s
  {
    var i := FirstIndex(s + [x], x);
    assert i == |s|;
    assert (s + [x])[..|s|] == s;
  }

  /** `if x not in s: s.append(x)`: the list after a guarded append. */
  function AppendIfAbsent<T(==)>(s: seq<T>, x: T): (r: seq<T>)
    ensures x in r
    ensures x in s ==> r == s
    ensures x !in s ==> r == s + [x]
    ensures Distinct(s) ==> Distinct(r) && multiset(r)[x] == 1
  {
    if x in s then
      assert Distinct(s) ==> multiset(s)[x] == 1 by {
        if Distinct(s) {
          var i :| 0 <= i < |s| && s[i] == x;
          DistinctCountOne(s, i);
        }
      }
      s
    else
      assert multiset(s)[x] == 0;
      s + [x]
  }

  /** A guarded append keeps a list duplicate-free. */
  lemma AppendIfAbsentDistinct<T>(s: seq<T>, x: T)
    requires Distinct(s)
    ensures Distinct(AppendIfAbsent(s, x))
  {
  }

  /** Guarded-appending the same value twice leaves one copy of it. */
  lemma AppendIfAbsentTwice<T>(s: seq<T>, x: T)
    requires Distinct(s)
    ensures AppendIfAbsent(AppendIfAbsent(s, x), x) == AppendIfAbsent(s, x)
    ensures multiset(AppendIfAbsent(s, x))[x] == 1
  {
    if x in s {
      var i :| 0 <= i < |s| && s[i] == x;
      DistinctCountOne(s, i);
    } else {
      assert multiset(s)[x] == 0;
    }
  }

  /** In a duplicate-free list every element occurs exactly once. */
  lemma {:induction false} DistinctCountOne<T>(s: seq<T>, i: nat)
    requires Distinct(s) && i < |s|
    ensures multiset(s)[s[i]] == 1
  {
    assert s == [s[0]] + s[1..];
    if i == 0 {
      assert s[0] !in s[1..];
      assert multiset(s[1..])[s[0]] == 0;
    } else {
      DistinctCountOne(s[1..], i - 1);
      assert s[1..][i - 1] == s[i];
    }
  }
}
