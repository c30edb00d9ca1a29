/** Finite sets: sizes of subsets, and greatest elements. */
module Sets {

  lemma SubsetSize<T>(a: set<T>, b: set<T>)
    requires a <= b
    ensures |a| <= |b| && (|a| == |b| ==> a == b)
  {
    assert b == a + (b - a);
  }

  ghost function AnyOf<T>(s: set<T>): (x: T)
    requires s != {}
    ensures x in s
  {
    var x :| x in s;
    x
  }

  lemma {:induction false} SubsetOfSize<T>(s: set<T>, n: nat)
    requires n <= |s|
    ensures exists t :: t <= s && |t| == n
  {
    if n == |s| {
      assert s <= s;
    } else {
      var x :| x in s;
      SubsetOfSize(s - {x}, n);
      var t :| t <= s - {x} && |t| == n;
      assert t <= s;
    }
  }

  lemma {:induction false} MaxExists(s: set<int>)
    requires s != {}
    ensures exists m :: m in s && forall x | x in s :: x <= m
  {
    var y := AnyOf(s);
    if s == {y} {
      assert forall x | x in s :: x <= y;
    } else {
      MaxExists(s - {y});
      var m :| m in s - {y} && forall x | x in s - {y} :: x <= m;
      var top := if m < y then y else m;
      forall x | x in s ensures x <= top {
        assert x == y || x in s - {y};
      }
      assert top in s;
    }
  }

  function Max(s: set<int>): (m: int)
    requires s != {}
    ensures m in s && forall x | x in s :: x <= m
  {
    MaxExists(s);
    var m :| m in s && forall x | x in s :: x <= m;
    m
  }
}
