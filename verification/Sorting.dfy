/** Sorting by a strict order, and the lexicographic order on strings. */
module Sorting {

  ghost predicate StrictOrder<T(!new)>(less: (T, T) -> bool) {
    && (forall x :: !less(x, x))
    && (forall x, y, z :: less(x, y) && less(y, z) ==> less(x, z))
  }

  ghost predicate TotalOn<T(!new)>(less: (T, T) -> bool, s: seq<T>) {
    forall i, j | 0 <= i < j < |s| :: less(s[i], s[j]) || less(s[j], s[i])
  }

  ghost predicate IsSorted<T(!new)>(less: (T, T) -> bool, s: seq<T>) {
    forall i, j | 0 <= i < j < |s| :: less(s[i], s[j])
  }

  function Insert<T>(s: seq<T>, x: T, less: (T, T) -> bool): seq<T> {
    if s == [] || less(x, s[0]) then [x] + s else [s[0]] + Insert(s[1..], x, less)
  }

  function SortBy<T>(s: seq<T>, less: (T, T) -> bool): seq<T> {
    if s == [] then [] else Insert(SortBy(s[1..], less), s[0], less)
  }

  lemma {:induction false} InsertElements<T>(s: seq<T>, x: T, less: (T, T) -> bool)
    ensures multiset(Insert(s, x, less)) == multiset(s) + multiset{x}
    ensures forall y :: y in Insert(s, x, less) <==> y in s || y == x
  {
    if s != [] && !less(x, s[0]) {
      InsertElements(s[1..], x, less);
      assert s == [s[0]] + s[1..];
    }
  }

  lemma {:induction false} InsertSorted<T(!new)>(s: seq<T>, x: T, less: (T, T) -> bool)
    requires StrictOrder(less) && IsSorted(less, s)
    requires forall y | y in s :: less(x, y) || less(y, x)
    ensures IsSorted(less, Insert(s, x, less))
  {
    if s == [] {
    } else if less(x, s[0]) {
      var r := [x] + s;
      forall i, j | 0 <= i < j < |r| ensures less(r[i], r[j]) {
        if i == 0 && j > 1 { assert less(s[0], s[j - 1]); }
      }
    } else {
      assert s[0] in s;
      InsertSorted(s[1..], x, less);
      InsertElements(s[1..], x, less);
      var tail := Insert(s[1..], x, less);
      forall j | 0 <= j < |tail| ensures less(s[0], tail[j]) {
        assert tail[j] in tail;
        if tail[j] != x {
          var k :| 0 <= k < |s[1..]| && s[1..][k] == tail[j];
          assert less(s[0], s[k + 1]);
        }
      }
    }
  }

  lemma {:induction false} SortBySorts<T(!new)>(s: seq<T>, less: (T, T) -> bool)
    requires StrictOrder(less) && TotalOn(less, s)
    ensures IsSorted(less, SortBy(s, less)) && multiset(SortBy(s, less)) == multiset(s)
    ensures forall y :: y in SortBy(s, less) <==> y in s
  {
    if s != [] {
      var tail := s[1..];
      assert s == [s[0]] + tail;
      assert forall i | 0 <= i < |tail| :: tail[i] == s[i + 1];
      SortBySorts(tail, less);
      InsertElements(SortBy(tail, less), s[0], less);
      forall y | y in tail ensures less(s[0], y) || less(y, s[0]) {
        var k :| 0 <= k < |tail| && tail[k] == y;
        assert s[k + 1] == y;
      }
      InsertSorted(SortBy(tail, less), s[0], less);
    }
  }

  lemma FirstIsLeast<T(!new)>(a: seq<T>, x: T, less: (T, T) -> bool)
    requires IsSorted(less, a) && x in a
    ensures x == a[0] || less(a[0], x)
  {
  }

  lemma Asymmetric<T(!new)>(x: T, y: T, less: (T, T) -> bool)
    requires StrictOrder(less)
    ensures !(less(x, y) && less(y, x))
  {
  }

  lemma TailMembers<T(!new)>(a: seq<T>, less: (T, T) -> bool)
    requires StrictOrder(less) && IsSorted(less, a) && a != []
    ensures IsSorted(less, a[1..]) && forall x :: x in a[1..] <==> x in a && x != a[0]
  {
  }

  /** Two sorted lists with the same elements are the same. */
  lemma {:induction false} SortedIsUnique<T(!new)>(a: seq<T>, b: seq<T>, less: (T, T) -> bool)
    requires StrictOrder(less) && IsSorted(less, a) && IsSorted(less, b) && forall x :: x in a <==> x in b
    ensures a == b
    decreases |a|
  {
    if b != [] {
      assert b[0] in b;
    }
    if a != [] {
      assert a[0] in a;
      FirstIsLeast(b, a[0], less);
      FirstIsLeast(a, b[0], less);
      Asymmetric(a[0], b[0], less);
      TailMembers(a, less);
      TailMembers(b, less);
      SortedIsUnique(a[1..], b[1..], less);
      assert a == [a[0]] + a[1..];
      assert b == [b[0]] + b[1..];
    }
  }

  // --- strings ---

  predicate Less(a: string, b: string) {
    if b == "" then false
    else if a == "" then true
    else a[0] < b[0] || (a[0] == b[0] && Less(a[1..], b[1..]))
  }

  /** The strings agree up to k, and a has the smaller character there. */
  predicate SmallerAt(a: string, b: string, k: nat) {
    k < |a| && k < |b| && a[..k] == b[..k] && a[k] < b[k]
  }

  lemma SmallerInTails(a: string, b: string, k: nat)
    requires a != "" && b != "" && a[0] == b[0]
    ensures SmallerAt(a, b, k + 1) <==> SmallerAt(a[1..], b[1..], k)
  {
    if k < |a[1..]| && k < |b[1..]| {
      assert a[..k + 1] == [a[0]] + a[1..][..k] && b[..k + 1] == [b[0]] + b[1..][..k];
      assert a[..k + 1][1..] == a[1..][..k] && b[..k + 1][1..] == b[1..][..k];
    }
  }

  lemma SmallerAgreesBefore(a: string, b: string, k: nat)
    requires SmallerAt(a, b, k) && k > 0
    ensures a[0] == b[0]
  {
    assert a[..k][0] == a[0] && b[..k][0] == b[0];
  }

  ghost predicate Smaller(a: string, b: string) {
    a < b || exists k: nat :: SmallerAt(a, b, k)
  }

  lemma SmallerStep(a: string, b: string)
    requires a != "" && b != ""
    ensures Smaller(a, b) <==> a[0] < b[0] || (a[0] == b[0] && Smaller(a[1..], b[1..]))
  {
    assert a == [a[0]] + a[1..] && b == [b[0]] + b[1..];
    assert SmallerAt(a, b, 0) <==> a[0] < b[0];
    if k: nat :| SmallerAt(a, b, k) && k > 0 {
      SmallerAgreesBefore(a, b, k);
      SmallerInTails(a, b, k - 1);
    }
    if a[0] == b[0] {
      if k: nat :| SmallerAt(a[1..], b[1..], k) {
        SmallerInTails(a, b, k);
      }
    }
  }

  lemma {:induction false} LessIsSmaller(a: string, b: string)
    ensures Less(a, b) <==> Smaller(a, b)
  {
    if a != "" && b != "" {
      LessIsSmaller(a[1..], b[1..]);
      SmallerStep(a, b);
    }
  }

  /** Strings are ordered by the first character in which they differ, and a proper prefix comes first. */
  lemma LessIff(a: string, b: string)
    ensures Less(a, b) <==> a < b || exists k: nat :: k < |a| && k < |b| && a[..k] == b[..k] && a[k] < b[k]
  {
    LessIsSmaller(a, b);
    if k: nat :| SmallerAt(a, b, k) {
      assert k < |a| && k < |b| && a[..k] == b[..k] && a[k] < b[k];
    }
    if k: nat :| k < |a| && k < |b| && a[..k] == b[..k] && a[k] < b[k] {
      assert SmallerAt(a, b, k);
    }
  }

  lemma {:induction false} LessIsTransitive(a: string, b: string, c: string)
    requires Less(a, b) && Less(b, c)
    ensures Less(a, c)
  {
    if a != "" && a[0] == b[0] && b[0] == c[0] {
      LessIsTransitive(a[1..], b[1..], c[1..]);
    }
  }

  lemma {:induction false} LessIsIrreflexive(a: string)
    ensures !Less(a, a)
  {
    if a != "" {
      LessIsIrreflexive(a[1..]);
    }
  }

  lemma {:induction false} LessIsTotal(a: string, b: string)
    ensures a == b || Less(a, b) || Less(b, a)
  {
    if a != "" && b != "" && a[0] == b[0] {
      LessIsTotal(a[1..], b[1..]);
      assert a == [a[0]] + a[1..] && b == [b[0]] + b[1..];
    }
  }

  lemma LessIsStrict()
    ensures StrictOrder(Less)
  {
    forall a: string ensures !Less(a, a) {
      LessIsIrreflexive(a);
    }
    forall a: string, b: string, c: string | Less(a, b) && Less(b, c) ensures Less(a, c) {
      LessIsTransitive(a, b, c);
    }
  }
}
