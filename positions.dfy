/** The "append at max + 1" rule shared by the task and column models
    (`getNextPosition` in server/src/models/Task.ts and Column.ts), stated
    over the set of positions already taken. */
module Positions {
  import opened Common

  /** The positions 0 .. n-1 of a dense, zero-based list of length n. */
  function Range(n: nat): (r: set<int>)
    ensures forall x :: x in r <==> 0 <= x < n
    ensures |r| == n
  {
    if n == 0 then {}
    else
      var rest := Range(n - 1);
      assert n - 1 !in rest;
      rest + {n - 1}
  }

  lemma HasElement(ps: set<int>)
    requires ps != {}
    ensures exists x :: x in ps
  {
    if forall x :: x !in ps {
      assert false;
    }
  }

  /** Every finite non-empty set of integers has a largest element. */
  lemma {:induction false} LargestOf(ps: set<int>) returns (m: int)
    requires ps != {}
    ensures m in ps && forall x :: x in ps ==> x <= m
  {
    HasElement(ps);
    var y :| y in ps;
    if ps == {y} {
      m := y;
    } else {
      var rest := ps - {y};
      var k := LargestOf(rest);
      m := if k < y then y else k;
      forall x | x in ps ensures x <= m {
        if x != y {
          assert x in rest;
        }
      }
    }
  }

  lemma MaxExists(ps: set<int>)
    requires ps != {}
    ensures exists m :: m in ps && forall x :: x in ps ==> x <= m
  {
    var m := LargestOf(ps);
  }

  /** The largest position, which `findOne(...).sort({ position: -1 })` reads. */
  function Max(ps: set<int>): (m: int)
    requires ps != {}
    ensures m in ps
    ensures forall x :: x in ps ==> x <= m
  {
    MaxExists(ps);
    var m :| m in ps && forall x :: x in ps ==> x <= m;
    m
  }

  /** `getNextPosition`: 0 when nothing is taken, otherwise one past the
      largest position taken. */
  function NextPosition(ps: set<int>): (r: int)
    ensures ps == {} ==> r == 0
    ensures ps != {} ==> r - 1 in ps
    ensures forall x :: x in ps ==> x < r
  {
    if ps == {} then 0 else Max(ps) + 1
  }

  /** The next position never collides with a taken one, and it is not
      negative when no taken position is. */
  lemma NextPositionFree(ps: set<int>)
    requires forall x :: x in ps ==> 0 <= x
    ensures NextPosition(ps) !in ps
    ensures 0 <= NextPosition(ps)
  {
    if ps != {} {
      assert NextPosition(ps) - 1 in ps;
    }
  }

  /** The pre-save hook of the task and column schemas: a new document
      without a position gets `next`; every other document keeps what it
      has. */
  function PreSavePosition(isNew: bool, position: Option<int>, next: int): (r: Option<int>)
    ensures position.Some? ==> r == position
    ensures !isNew ==> r == position
    ensures isNew && position.None? ==> r == Some(next)
  {
    if isNew && position.None? then Some(next) else position
  }

  /** A subset of 0 .. n-1 with n elements is all of 0 .. n-1. */
  lemma FullSubsetOfRange(ps: set<int>, n: nat)
    requires ps <= Range(n)
    requires |ps| == n
    ensures ps == Range(n)
  {
    var missing := Range(n) - ps;
    assert Range(n) == ps + missing;
    assert |Range(n)| == |ps| + |missing|;
    assert missing == {};
  }

  /** On the dense positions 0 .. n-1 the next position is n, so appending
      keeps the list dense and zero-based. */
  lemma {:induction false} NextOfRange(n: nat)
    ensures NextPosition(Range(n)) == n
  {
    if n > 0 {
      var m := Max(Range(n));
      assert n - 1 in Range(n);
    }
  }
}
