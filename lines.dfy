/**
 * Line-number sets turned into the descending lists the plugin renders:
 * `sorted(list(s), reverse=True)` applied to a set of line numbers.
 */
module Lines {

  /** Every element is strictly greater than every element after it. */
  predicate StrictlyDescending(r: seq<int>) {
    forall i, j :: 0 <= i < j < |r| ==> r[i] > r[j]
  }

  /** A non-empty set has an element. */
  lemma HasElement(s: set<int>)
    requires s != {}
    ensures exists y :: y in s
  {
    if forall y :: y !in s {
      assert false;
    }
  }

  /** A non-empty finite set of integers has a largest element. */
  lemma {:induction false} MaxExists(s: set<int>)
    requires s != {}
    ensures exists m :: m in s && forall x :: x in s ==> x <= m
  {
    HasElement(s);
    var y :| y in s;
    if s - {y} != {} {
      MaxExists(s - {y});
      var m :| m in s - {y} && forall x :: x in s - {y} ==> x <= m;
      var top := if y <= m then m else y;
      forall x | x in s ensures x <= top {
        if x != y { assert x in s - {y}; }
      }
    } else {
      forall x | x in s ensures x <= y {
        assert x !in s - {y};
      }
    }
  }

  /** The largest element of a non-empty set. */
  function MaxOf(s: set<int>): (m: int)
    requires s != {}
    ensures m in s
    ensures forall x :: x in s ==> x <= m
  {
    MaxExists(s);
    var m :| m in s && forall x :: x in s ==> x <= m; m
  }

  /** The elements of `s`, largest first: Python's `sorted(list(s), reverse=True)`. */
  function SortedDescending(s: set<int>): (r: seq<int>)
    ensures |r| == |s|
    ensures forall x :: x in r <==> x in s
    ensures StrictlyDescending(r)
    decreases |s|
  {
    if s == {} then []
    else
      var m := MaxOf(s);
      [m] + SortedDescending(s - {m})
  }

  /**
   * A strictly descending sequence is determined by its elements: any two with the same
   * elements are equal, so SortedDescending is the one descending ordering of a set.
   */
  lemma {:induction false} DescendingUnique(a: seq<int>, b: seq<int>)
    requires StrictlyDescending(a) && StrictlyDescending(b)
    requires forall x :: x in a <==> x in b
    ensures a == b
  {
    if a != [] {
      assert a[0] in a;
      assert a[0] in b;
    }
    if b != [] {
      assert b[0] in b;
      assert b[0] in a;
    }
    if a != [] && b != [] {
      var i :| 0 <= i < |b| && b[i] == a[0];
      var j :| 0 <= j < |a| && a[j] == b[0];
      assert b[0] >= b[i] && a[0] >= a[j];
      assert a[0] == b[0];
      forall x | x in a[1..] ensures x in b[1..] {
        var k :| 0 <= k < |a[1..]| && a[1..][k] == x;
        assert a[k + 1] == x && x in a;
        assert x in b;
        var l :| 0 <= l < |b| && b[l] == x;
        assert x < a[0] == b[0];
        assert b[1..][l - 1] == x;
      }
      forall x | x in b[1..] ensures x in a[1..] {
        var k :| 0 <= k < |b[1..]| && b[1..][k] == x;
        assert b[k + 1] == x && x in b;
        assert x in a;
        var l :| 0 <= l < |a| && a[l] == x;
        assert x < b[0] == a[0];
        assert a[1..][l - 1] == x;
      }
      DescendingUnique(a[1..], b[1..]);
      assert a == [a[0]] + a[1..] && b == [b[0]] + b[1..];
    }
  }

  /** The descending list of a set equals any descending list that enumerates it. */
  lemma SortedDescendingIs(s: set<int>, r: seq<int>)
    requires StrictlyDescending(r)
    requires forall x :: x in r <==> x in s
    ensures SortedDescending(s) == r
  {
    DescendingUnique(SortedDescending(s), r);
  }
}
