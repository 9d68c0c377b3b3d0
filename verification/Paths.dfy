/** Finite paths of a step relation. */
module Paths {

  ghost predicate Path<T(!new)>(next: (T, T) -> bool, a: T, b: T, k: nat)
    decreases k
  {
    if k == 0 then a == b
    else exists m :: next(a, m) && Path(next, m, b, k - 1)
  }

  ghost predicate Reaches<T(!new)>(next: (T, T) -> bool, a: T, b: T)
  {
    exists k: nat :: Path(next, a, b, k)
  }

  lemma ReachesSelf<T(!new)>(next: (T, T) -> bool, a: T)
    ensures Reaches(next, a, a)
  {
    assert Path(next, a, a, 0);
  }

  lemma ReachesStep<T(!new)>(next: (T, T) -> bool, a: T, b: T)
    requires next(a, b)
    ensures Reaches(next, a, b)
  {
    assert Path(next, b, b, 0);
    assert Path(next, a, b, 1);
  }

  lemma {:induction false} PathTrans<T(!new)>(next: (T, T) -> bool, a: T, b: T, d: T, j: nat, k: nat)
    requires Path(next, a, b, j) && Path(next, b, d, k)
    ensures Path(next, a, d, j + k)
    decreases j
  {
    if j > 0 {
      var m :| next(a, m) && Path(next, m, b, j - 1);
      PathTrans(next, m, b, d, j - 1, k);
      assert next(a, m) && Path(next, m, d, j + k - 1);
    }
  }

  lemma ReachesTrans<T(!new)>(next: (T, T) -> bool, a: T, b: T, d: T)
    requires Reaches(next, a, b) && Reaches(next, b, d)
    ensures Reaches(next, a, d)
  {
    var j: nat :| Path(next, a, b, j);
    var k: nat :| Path(next, b, d, k);
    PathTrans(next, a, b, d, j, k);
  }

  /** What every step keeps holds at the end of every path. */
  lemma {:induction false} PathKeeps<T(!new)>(next: (T, T) -> bool, inv: T -> bool, a: T, b: T, k: nat)
    requires Path(next, a, b, k) && inv(a)
    requires forall s, s' :: inv(s) && next(s, s') ==> inv(s')
    ensures inv(b)
    decreases k
  {
    if k > 0 {
      var m :| next(a, m) && Path(next, m, b, k - 1);
      PathKeeps(next, inv, m, b, k - 1);
    }
  }

  lemma ReachesKeeps<T(!new)>(next: (T, T) -> bool, inv: T -> bool, a: T, b: T)
    requires Reaches(next, a, b) && inv(a)
    requires forall s, s' :: inv(s) && next(s, s') ==> inv(s')
    ensures inv(b)
  {
    var k: nat :| Path(next, a, b, k);
    PathKeeps(next, inv, a, b, k);
  }

  /** A path of a smaller relation is a path of a larger one. */
  lemma {:induction false} PathWeakens<T(!new)>(next: (T, T) -> bool, wider: (T, T) -> bool, a: T, b: T, k: nat)
    requires Path(next, a, b, k) && forall s, s' :: next(s, s') ==> wider(s, s')
    ensures Path(wider, a, b, k)
    decreases k
  {
    if k > 0 {
      var m :| next(a, m) && Path(next, m, b, k - 1);
      PathWeakens(next, wider, m, b, k - 1);
    }
  }

  lemma ReachesWeakens<T(!new)>(next: (T, T) -> bool, wider: (T, T) -> bool, a: T, b: T)
    requires Reaches(next, a, b) && forall s, s' :: next(s, s') ==> wider(s, s')
    ensures Reaches(wider, a, b)
  {
    var k: nat :| Path(next, a, b, k);
    PathWeakens(next, wider, a, b, k);
  }

  /** A path that keeps `inv` is, step for step, a path of another system under a map of its states. */
  lemma {:induction false} PathMaps<T(!new), U(!new)>(next: (T, T) -> bool, inv: T -> bool, wider: (U, U) -> bool,
                                      f: T -> U,
                                                      a: T, b: T, k: nat)
    requires Path(next, a, b, k) && inv(a)
    requires forall s, s' :: inv(s) && next(s, s') ==> inv(s') && wider(f(s), f(s'))
    ensures Path(wider, f(a), f(b), k)
    decreases k
  {
    if k > 0 {
      var m :| next(a, m) && Path(next, m, b, k - 1);
      PathMaps(next, inv, wider, f, m, b, k - 1);
      assert wider(f(a), f(m));
    }
  }

  lemma ReachesMaps<T(!new), U(!new)>(next: (T, T) -> bool, inv: T -> bool, wider: (U, U) -> bool, f: T -> U, a: T,
                      b: T)
    requires Reaches(next, a, b) && inv(a)
    requires forall s, s' :: inv(s) && next(s, s') ==> inv(s') && wider(f(s), f(s'))
    ensures Reaches(wider, f(a), f(b))
  {
    var k: nat :| Path(next, a, b, k);
    PathMaps(next, inv, wider, f, a, b, k);
  }
}
