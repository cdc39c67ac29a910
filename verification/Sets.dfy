/** Facts about finite sets that several modules need. */
module Sets {

  ghost function Pick<T>(s: set<T>): (e: T)
    requires s != {}
    ensures e in s
  {
    var e :| e in s;
    e
  }

  predicate IsMax(s: set<int>, m: int) {
    m in s && forall x :: x in s ==> x <= m
  }

  lemma {:induction false} MaxExists(s: set<int>) returns (m: int)
    requires s != {}
    ensures IsMax(s, m)
  {
    var e := Pick(s);
    var rest := s - {e};
    if rest == {} {
      m := e;
      forall x | x in s
        ensures x <= e
      {
        assert x in rest || x == e;
      }
    } else {
      var top := MaxExists(rest);
      m := if top < e then e else top;
      forall x | x in s
        ensures x <= m
      {
        assert x == e || x in rest;
      }
    }
  }

  lemma SubsetSize<T>(a: set<T>, b: set<T>)
    requires a <= b
    ensures |a| <= |b|
    ensures |b - a| == |b| - |a|
  {
    assert b == a + (b - a);
  }
}
