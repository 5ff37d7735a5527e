/** The iteration order of std::map: keys from the least upwards. */
module Ascending {
  ghost function Least(s: set<nat>): (k: nat)
    requires s != {}
    ensures k in s && forall x :: x in s ==> k <= x
  {
    var a :| a in s;
    LeastBelow(s, a);
    var k :| k in s && forall x :: x in s ==> k <= x;
    k
  }

  lemma {:induction false} LeastBelow(s: set<nat>, a: nat)
    requires a in s
    ensures exists k :: k in s && forall x :: x in s ==> k <= x
    decreases a
  {
    if b :| b in s && b < a { LeastBelow(s, b); }
  }

  /** The least element of a set, by looking at all of them. */
  method FindLeast(s: set<nat>) returns (k: nat)
    requires s != {}
    ensures k == Least(s)
  {
    k :| k in s;
    var left := s - {k};
    while left != {}
      invariant left <= s && k in s && forall x :: x in s && x !in left ==> k <= x
      decreases left
    {
      var x :| x in left;
      left := left - {x};
      if x < k { k := x; }
    }
  }
}
