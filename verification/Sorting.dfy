/** A stable sort by a real-valued key, as the source's `sorted(..., key=...)`. */
module Sorting {

  ghost predicate Ordered<T>(s: seq<T>, key: T -> real) {
    forall i, j :: 0 <= i < j < |s| ==> key(s[i]) <= key(s[j])
  }

  ghost predicate Distinct<T>(s: seq<T>) {
    forall i, j :: 0 <= i < j < |s| ==> s[i] != s[j]
  }

  function Insert<T>(s: seq<T>, x: T, key: T -> real): seq<T> {
    if s == [] || key(x) <= key(s[0]) then [x] + s else [s[0]] + Insert(s[1..], x, key)
  }

  function SortBy<T>(s: seq<T>, key: T -> real): seq<T> {
    if s == [] then [] else Insert(SortBy(s[1..], key), s[0], key)
  }

  lemma {:induction false} InsertContents<T>(s: seq<T>, x: T, key: T -> real)
    ensures multiset(Insert(s, x, key)) == multiset(s) + multiset{x}
  {
    if s != [] && key(x) > key(s[0]) {
      InsertContents(s[1..], x, key);
      assert s == [s[0]] + s[1..];
    }
  }

  lemma {:induction false} InsertSorts<T>(s: seq<T>, x: T, key: T -> real)
    requires Ordered(s, key)
    ensures Ordered(Insert(s, x, key), key) && multiset(Insert(s, x, key)) == multiset(s) + multiset{x}
  {
    InsertContents(s, x, key);
    if s != [] && key(x) > key(s[0]) {
      var t := Insert(s[1..], x, key);
      InsertSorts(s[1..], x, key);
      forall i | 0 <= i < |t| ensures key(s[0]) <= key(t[i]) {
        assert t[i] in multiset(t);
        if t[i] != x {
          assert t[i] in multiset(s[1..]);
        }
      }
    }
  }

  lemma {:induction false} SortBySorts<T>(s: seq<T>, key: T -> real)
    ensures Ordered(SortBy(s, key), key) && multiset(SortBy(s, key)) == multiset(s) && |SortBy(s, key)| == |s|
  {
    if s != [] {
      SortBySorts(s[1..], key);
      InsertSorts(SortBy(s[1..], key), s[0], key);
      assert s == [s[0]] + s[1..];
    }
    assert |multiset(SortBy(s, key))| == |multiset(s)|;
  }

  lemma SameElements<T>(a: seq<T>, b: seq<T>)
    requires multiset(a) == multiset(b)
    ensures forall x :: x in a <==> x in b
  {
    forall x ensures x in a <==> x in b {
      assert x in a <==> x in multiset(a);
      assert x in b <==> x in multiset(b);
    }
  }

  lemma DistinctCountsOne<T>(s: seq<T>, i: nat)
    requires Distinct(s) && i < |s|
    ensures multiset(s)[s[i]] == 1
  {
    assert s == s[..i] + [s[i]] + s[i + 1..];
    assert s[i] !in multiset(s[..i]) && s[i] !in multiset(s[i + 1..]);
  }

  lemma RepeatCountsTwo<T>(s: seq<T>, i: nat, j: nat)
    requires i < j < |s| && s[i] == s[j]
    ensures multiset(s)[s[i]] >= 2
  {
    assert s == s[..j] + [s[j]] + s[j + 1..];
    assert s[..j][i] in multiset(s[..j]);
  }

  /** Rearranging distinct elements leaves them distinct. */
  lemma DistinctRearranged<T>(a: seq<T>, b: seq<T>)
    requires multiset(a) == multiset(b) && Distinct(a)
    ensures Distinct(b)
  {
    forall i, j | 0 <= i < j < |b| ensures b[i] != b[j] {
      if b[i] == b[j] {
        RepeatCountsTwo(b, i, j);
        assert b[i] in multiset(a);
        var k :| 0 <= k < |a| && a[k] == b[i];
        DistinctCountsOne(a, k);
        assert false;
      }
    }
  }
}
