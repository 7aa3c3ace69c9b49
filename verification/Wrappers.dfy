/** Failure-carrying results and small facts about collections, shared by every module of the model. */
module Wrappers {
  datatype Option<+T> = None | Some(value: T)

  /** A value, or the exception that the modelled call raises (after which its transaction is rolled back). */
  datatype Result<+T, +E> = Ok(value: T) | Err(error: E)

  lemma Inhabited(s: set<int>)
    ensures s == {} || exists x :: x in s
  {
    if forall x :: x !in s { assert s == {}; }
  }

  lemma InhabitedNames(s: set<string>)
    ensures s == {} || exists x :: x in s
  {
    if forall x :: x !in s { assert s == {}; }
  }

  lemma Shrinks<T>(s: set<T>, x: T)
    requires x in s
    ensures |s - {x}| < |s|
  {
  }

  function Least(s: set<int>): (m: int)
    requires s != {}
    ensures m in s && forall k :: k in s ==> m <= k
  {
    LeastExists(s);
    var m :| m in s && forall k :: k in s ==> m <= k;
    m
  }

  lemma {:induction false} LeastExists(s: set<int>)
    requires s != {}
    ensures exists m :: m in s && forall k :: k in s ==> m <= k
    decreases |s|
  {
    Inhabited(s);
    var x :| x in s;
    if s != {x} {
      var rest := s - {x};
      LeastExists(rest);
      var m :| m in rest && forall k :: k in rest ==> m <= k;
      var best := if x < m then x else m;
      forall k | k in s ensures best <= k { assert k == x || k in rest; }
      assert best in s;
    }
  }

  /** The members in ascending order: `ORDER BY`. */
  function Ascend(s: set<int>): (r: seq<int>)
    ensures forall k :: k in r <==> k in s
    ensures forall i, j :: 0 <= i < j < |r| ==> r[i] < r[j]
    decreases |s|
  {
    if s == {} then [] else
      var m := Least(s);
      [m] + Ascend(s - {m})
  }
}
