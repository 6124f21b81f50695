/** Small value types shared by every module. */
module Basics {

  datatype Option<+T> = None | Some(value: T)

  /** The least element of a finite set of integers. */
  function Least(s: set<int>): (m: int)
    requires s != {}
    ensures m in s && forall x <- s :: m <= x
  {
    LeastExists(s);
    var m :| m in s && forall x <- s :: m <= x;
    m
  }

  lemma LeastExists(s: set<int>)
    requires s != {}
    ensures exists m :: m in s && forall x <- s :: m <= x
  {
    assert (forall x :: x !in s) ==> s == {};
    var x :| x in s;
    var rest := s - {x};
    if rest == {} {
      assert s == {x};
    } else {
      LeastExists(rest);
      var m :| m in rest && forall y <- rest :: m <= y;
      var best := if x < m then x else m;
      assert best in s && forall y <- s :: best <= y by {
        assert s == rest + {x};
      }
    }
  }

  lemma NothingIn<T(!new)>(s: seq<T>)
    ensures (forall x :: x !in s) ==> s == []
  {
    if s != [] {
      assert s[0] in s;
    }
  }
}
