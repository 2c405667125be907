/** Types and small collection facts shared by every module of the model. */
module Prelude {

  /** A UUID. `NIL` stands for uuid.Nil, which uuid.New never returns. */
  type Id = int
  const NIL: Id := 0

  /** An instant on the one nondecreasing clock shared by all stores. */
  type Time = nat

  datatype Option<+T> = None | Some(value: T)

  ghost predicate NoDup<T>(s: seq<T>)
  {
    forall i, j :: 0 <= i < j < |s| ==> s[i] != s[j]
  }

  /** Some row of a nonempty table; a scan's order is up to the database. */
  method AnyOf<T>(s: set<T>) returns (x: T)
    requires s != {}
    ensures x in s
  {
    x :| x in s;
  }

  /** The rows of a finite table in some order. */
  ghost function SomeOrder<T(!new)>(s: set<T>): (r: seq<T>)
    ensures forall x :: x in r <==> x in s
  {
    if s == {} then [] else
      var x :| x in s;
      [x] + SomeOrder(s - {x})
  }

  /** A duplicate-free sequence over a finite set is no longer than the set. */
  lemma {:induction false} NoDupBounded<T>(s: seq<T>, universe: set<T>)
    requires NoDup(s)
    requires forall x :: x in s ==> x in universe
    ensures |s| <= |universe|
  {
    if s != [] {
      var x := s[0];
      assert |universe - {x}| == |universe| - 1;
      forall y | y in s[1..] ensures y in universe - {x} {
        var i :| 0 <= i < |s[1..]| && s[1..][i] == y;
        assert s[i + 1] == y;
      }
      NoDupBounded(s[1..], universe - {x});
    }
  }
}
