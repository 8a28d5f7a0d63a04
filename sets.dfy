/** Minimum and maximum of a finite set of integers, and the counting facts
    the slot allocator relies on. */
module Sets {

  lemma EmptyIfNoElement<T>(s: set<T>)
    requires forall z :: z !in s
    ensures s == {}
  {
  }

  /** Some element of a non-empty set; callers use it as the witness that
      lets `:|` choose one. */
  lemma Pick<T>(s: set<T>) returns (y: T)
    requires s != {}
    ensures y in s
  {
    if forall z :: z !in s {
      EmptyIfNoElement(s);
      assert false;
    }
    y :| y in s;
  }

  lemma {:induction false} HasMax(s: set<int>)
    requires s != {}
    ensures exists m :: m in s && forall x | x in s :: x <= m
  {
    var y := Pick(s);
    if s != {y} {
      HasMax(s - {y});
      var m :| m in s - {y} && forall x | x in s - {y} :: x <= m;
      var top := if y > m then y else m;
      forall x | x in s ensures x <= top {
        if x != y { assert x in s - {y}; }
      }
      assert top in s;
    } else {
      assert forall x | x in s :: x <= y;
    }
  }

  lemma {:induction false} HasMin(s: set<int>)
    requires s != {}
    ensures exists m :: m in s && forall x | x in s :: m <= x
  {
    var y := Pick(s);
    if s != {y} {
      HasMin(s - {y});
      var m :| m in s - {y} && forall x | x in s - {y} :: m <= x;
      var bottom := if y < m then y else m;
      forall x | x in s ensures bottom <= x {
        if x != y { assert x in s - {y}; }
      }
      assert bottom in s;
    } else {
      assert forall x | x in s :: y <= x;
    }
  }

  function SetMax(s: set<int>): (m: int)
    requires s != {}
    ensures m in s && forall x | x in s :: x <= m
  {
    HasMax(s);
    var m :| m in s && forall x | x in s :: x <= m;
    m
  }

  function SetMin(s: set<int>): (m: int)
    requires s != {}
    ensures m in s && forall x | x in s :: m <= x
  {
    HasMin(s);
    var m :| m in s && forall x | x in s :: m <= x;
    m
  }

  /** A set of exactly two elements is {its minimum, its maximum}. */
  lemma {:induction false} PairIsMinMax(s: set<int>)
    requires |s| == 2
    ensures SetMin(s) < SetMax(s) && s == {SetMin(s), SetMax(s)}
  {
    var lo, hi := SetMin(s), SetMax(s);
    var rest := s - {lo, hi};
    assert |rest| == 0;
    assert rest == {};
    forall x | x in s ensures x == lo || x == hi {
      assert x !in rest;
    }
  }

  /** The integers lo..hi-1 as a set. */
  function Range(lo: int, hi: int): (r: set<int>)
    ensures forall x :: x in r <==> lo <= x < hi
    ensures lo <= hi ==> |r| == hi - lo
    decreases hi - lo
  {
    if lo >= hi then {} else {lo} + Range(lo + 1, hi)
  }

  /** A set included in another is no larger. */
  lemma {:induction false} SubsetSize<T>(a: set<T>, b: set<T>)
    requires a <= b
    ensures |a| <= |b|
  {
    if a != {} {
      var x := Pick(a);
      SubsetSize(a - {x}, b - {x});
    }
  }
}
